/** The administration dashboard's state logic: editing the channel allow
    list, saving the settings record the bot reads, deriving the memory
    statistics from the `conversations` table, and the three bulk deletes on
    that table. Confirmation dialogs and store failures are parameters. */
module Dashboard {
  import opened Wrappers
  import opened Sequences
  import opened Text
  import opened ConversationStore
  import DiscordBot

  // ------------------------------------------------------------ channel list

  /** No channel identifier occurs twice. */
  predicate Distinct(list: seq<string>) {
    forall i, j :: 0 <= i < j < |list| ==> list[i] != list[j]
  }

  /** What `addChannel` does with the pending input. */
  datatype AddOutcome =
    | Ignored                     // the trimmed input is empty
    | Duplicate                   // the trimmed input is already listed
    | Added(list: seq<string>)    // the new list

  function AddChannelOutcome(list: seq<string>, pending: string): (o: AddOutcome)
    ensures o.Ignored? <==> Trim(pending) == ""
    ensures o.Duplicate? <==> Trim(pending) != "" && Trim(pending) in list
    ensures o.Added? ==> o.list == list + [Trim(pending)]
  {
    var channel := Trim(pending);
    if channel == "" then Ignored
    else if channel in list then Duplicate
    else Added(list + [channel])
  }

  /** Adding keeps a duplicate-free list duplicate-free, never adds an empty
      or untrimmed identifier, and the channel it adds is then listed. */
  lemma AddChannelKeepsDistinct(list: seq<string>, pending: string)
    requires Distinct(list)
    ensures var o := AddChannelOutcome(list, pending);
            o.Added? ==> Distinct(o.list) && Trim(pending) in o.list &&
                         o.list[|o.list| - 1] != "" && Trim(o.list[|o.list| - 1]) == o.list[|o.list| - 1]
  {
    var o := AddChannelOutcome(list, pending);
    if o.Added? {
      var c := Trim(pending);
      forall i, j | 0 <= i < j < |o.list| ensures o.list[i] != o.list[j] {
        if j == |list| {
          assert o.list[i] == list[i];
        }
      }
      TrimIdempotent(pending);
    }
  }

  /** The start position `Array.prototype.splice` uses for a start argument:
      counted from the end when negative, clamped to the list. */
  function SpliceStart(index: int, length: nat): (k: nat)
    ensures k <= length
    ensures 0 <= index <= length ==> k == index
    ensures -(length as int) <= index < 0 ==> k == length + index
    ensures index < -(length as int) ==> k == 0
  {
    if index < 0 then (if length + index < 0 then 0 else length + index)
    else if index > length then length
    else index
  }

  /** `splice(index, 1)` on a copy of the list. */
  function RemoveAt(list: seq<string>, index: int): (r: seq<string>)
  {
    var k := SpliceStart(index, |list|);
    if k < |list| then list[..k] + list[k + 1..] else list
  }

  /** Removing by an index within the list removes exactly that entry and keeps
      the others in order; an index past the end removes nothing. The result
      of removing from a duplicate-free list no longer holds the entry. */
  lemma RemoveAtProperties(list: seq<string>, index: int)
    ensures var r := RemoveAt(list, index);
            && (0 <= index < |list| ==>
                  |r| == |list| - 1 &&
                  (forall i :: 0 <= i < index ==> r[i] == list[i]) &&
                  (forall i :: index <= i < |r| ==> r[i] == list[i + 1]))
            && (index >= |list| ==> r == list)
            && (forall c :: c in r ==> c in list)
            && (Distinct(list) ==> Distinct(r))
            && (Distinct(list) && 0 <= index < |list| ==> list[index] !in r)
  {
    var r := RemoveAt(list, index);
    var k := SpliceStart(index, |list|);
    if k < |list| {
      assert forall i :: 0 <= i < |r| ==> r[i] == (if i < k then list[i] else list[i + 1]);
      if Distinct(list) {
        forall i, j | 0 <= i < j < |r| ensures r[i] != r[j] {
          var i' := if i < k then i else i + 1;
          var j' := if j < k then j else j + 1;
          assert r[i] == list[i'] && r[j] == list[j'];
        }
        forall i | 0 <= i < |r| ensures r[i] != list[k] {
          var i' := if i < k then i else i + 1;
          assert r[i] == list[i'] && i' != k;
        }
      }
    }
  }

  // --------------------------------------------------------------- settings

  const MaxInstructions := 4000
  const InstructionsTooLong := "Instructions exceed 4000 character limit"
  const SaveFailedDefault := "Error saving settings. Please try again."
  const SavedNotice := "Settings saved. Bot will update within 30 seconds."
  const ChannelExists := "Channel already exists in the list"

  /** The single `admin_settings` row (upserted with id 1). */
  datatype AdminSettings = AdminSettings(id: nat, systemInstructions: string, allowedChannels: seq<string>)

  datatype StatusKind = Success | Error
  datatype SaveStatus = SaveStatus(kind: StatusKind, message: string)

  function NonEmpty(): string -> bool {
    (c: string) => c != ""
  }

  /** The list `saveSettings` writes: with a pending input, the list plus the
      trimmed input with every empty entry dropped; otherwise the list as is. */
  function MergedChannels(list: seq<string>, pending: string): seq<string> {
    if pending != "" then Filter(NonEmpty(), list + [Trim(pending)]) else list
  }

  /** The merged list holds exactly the listed channels and the trimmed
      pending input, without empty entries; it is the list with the input
      appended when the input trims to something and the list had no empty
      entry. It does not drop a pending channel that is already listed. */
  lemma MergedChannelsProperties(list: seq<string>, pending: string, c: string)
    ensures var m := MergedChannels(list, pending);
            && (pending == "" ==> m == list)
            && (pending != "" ==> (c in m <==> c != "" && (c in list || c == Trim(pending))))
            && (pending != "" ==> "" !in m)
            && (pending != "" && Trim(pending) != "" && "" !in list ==> m == list + [Trim(pending)])
  {
    if pending != "" && Trim(pending) != "" && "" !in list {
      FilterKeepsAll(NonEmpty(), list + [Trim(pending)]);
    }
  }

  /** A pending channel equal to a listed one is saved a second time. */
  lemma MergeKeepsDuplicates(list: seq<string>, pending: string)
    requires Trim(pending) != "" && Trim(pending) in list && "" !in list
    ensures !Distinct(MergedChannels(list, pending))
  {
    var t := Trim(pending);
    MergedChannelsProperties(list, pending, t);
    var m := MergedChannels(list, pending);
    var k :| 0 <= k < |list| && list[k] == t;
    assert m[k] == t && m[|list|] == t;
  }

  /** The outcome of the write in `saveSettings`. */
  datatype SaveResult =
    | TooLong
    | UpsertFailed(message: string)
    | Written(settings: AdminSettings)

  /** Validation, merge and upsert; `upsertError` is the store's error
      message when the upsert fails. */
  function SaveAttempt(instructions: string, list: seq<string>, pending: string,
                       upsertError: Option<string>): (o: SaveResult)
    ensures o.TooLong? <==> |instructions| > MaxInstructions
    ensures o.UpsertFailed? <==> |instructions| <= MaxInstructions && upsertError.Some?
    ensures o.UpsertFailed? ==>
              o.message == (if upsertError.value != "" then upsertError.value else SaveFailedDefault) &&
              o.message != ""
    ensures o.Written? ==>
              && o.settings.id == 1
              && o.settings.systemInstructions == instructions
              && |o.settings.systemInstructions| <= MaxInstructions
              && o.settings.allowedChannels == MergedChannels(list, pending)
  {
    if |instructions| > MaxInstructions then TooLong
    else if upsertError.Some? then
      UpsertFailed(if upsertError.value != "" then upsertError.value else SaveFailedDefault)
    else Written(AdminSettings(1, instructions, MergedChannels(list, pending)))
  }

  /** After a successful save the bot admits every channel of the saved list,
      including the trimmed pending one, and only those once the list is
      non-empty. */
  lemma SavedChannelsAreAllowed(instructions: string, list: seq<string>, pending: string, c: string)
    requires SaveAttempt(instructions, list, pending, None).Written?
    ensures var saved := SaveAttempt(instructions, list, pending, None).settings.allowedChannels;
            && (c in list && c != "" ==> DiscordBot.IsChannelAllowed(c, Some(saved)))
            && (pending != "" && Trim(pending) != "" ==> DiscordBot.IsChannelAllowed(Trim(pending), Some(saved)))
            && (saved != [] ==> (DiscordBot.IsChannelAllowed(c, Some(saved)) <==> c in saved))
  {
    MergedChannelsProperties(list, pending, c);
    MergedChannelsProperties(list, pending, Trim(pending));
  }

  // ------------------------------------------------------------ memory stats

  /** `created_at` is represented by the row identifier: both grow with
      insertion order, so ordering by either gives the same rows. */
  datatype MemoryStats = MemoryStats(
    totalConversations: nat,
    uniqueUsers: nat,
    uniqueChannels: nat,
    oldestConversation: Option<nat>,
    newestConversation: Option<nat>,
    recentConversations: seq<Row>)

  const StatsLimit := 100
  const RecentCount := 5

  /** The stats set when a read fails. */
  const EmptyStats := MemoryStats(0, 0, 0, None, None, [])

  function UserSet(rows: seq<Row>): set<string> {
    set r | r in rows :: r.user
  }

  function ChannelSet(rows: seq<Row>): set<string> {
    set r | r in rows :: r.channel
  }

  /** `order('created_at', desc).limit(100)`: the newest rows, newest first. */
  function NewestFirst(rows: seq<Row>): seq<Row> {
    Take(Reverse(rows), StatsLimit)
  }

  /** The stats computed from the three reads; the distinct counts come from
      the unlimited reads, the rest from the limited one. */
  function DeriveStats(rows: seq<Row>): MemoryStats {
    var conversations := NewestFirst(rows);
    MemoryStats(
      |conversations|,
      |UserSet(rows)|,
      |ChannelSet(rows)|,
      if conversations == [] then None else Some(conversations[|conversations| - 1].id),
      if conversations == [] then None else Some(conversations[0].id),
      Take(conversations, RecentCount))
  }

  /** `loadMemoryStats`: any failed read yields the all-zero stats. */
  function LoadedStats(rows: seq<Row>, readFails: bool): MemoryStats {
    if readFails then EmptyStats else DeriveStats(rows)
  }

  /** A set of keys drawn from the rows has at most one key per row, and is
      empty exactly when there are no rows. */
  lemma {:induction false} KeySetBounds(rows: seq<Row>)
    ensures |UserSet(rows)| <= |rows| && |ChannelSet(rows)| <= |rows|
    ensures (UserSet(rows) == {} <==> rows == []) && (ChannelSet(rows) == {} <==> rows == [])
  {
    if rows != [] {
      KeySetBounds(rows[1..]);
      assert UserSet(rows) == {rows[0].user} + UserSet(rows[1..]);
      assert ChannelSet(rows) == {rows[0].channel} + ChannelSet(rows[1..]);
      assert rows[0].user in UserSet(rows);
      assert rows[0].channel in ChannelSet(rows);
    }
  }

  /** The newest-first read holds the table's newest rows, newest first. */
  lemma NewestFirstOrder(rows: seq<Row>)
    ensures var c := NewestFirst(rows);
            |c| == Min(|rows|, StatsLimit) &&
            forall i :: 0 <= i < |c| ==> c[i] == rows[|rows| - 1 - i]
  {
  }

  /** The counts: at most 100 conversations, and distinct-user and
      distinct-channel counts that are at most the number of rows and zero
      only for an empty table. */
  lemma StatsCounts(rows: seq<Row>)
    ensures var s := DeriveStats(rows);
            && s.totalConversations == Min(|rows|, StatsLimit) <= StatsLimit
            && s.uniqueUsers <= |rows| && s.uniqueChannels <= |rows|
            && (s.uniqueUsers == 0 <==> rows == []) && (s.uniqueChannels == 0 <==> rows == [])
  {
    KeySetBounds(rows);
  }

  /** The newest conversation is the table's newest row, whose id bounds all
      others; the oldest is the oldest of the newest 100. */
  lemma StatsNewestOldest(rows: seq<Row>)
    requires IdsIncreasing(rows)
    ensures var s := DeriveStats(rows);
            && (s.newestConversation.Some? <==> rows != [])
            && (s.oldestConversation.Some? <==> rows != [])
            && (rows != [] ==> s.newestConversation.value == rows[|rows| - 1].id)
            && (rows != [] ==> s.oldestConversation.value == rows[|rows| - s.totalConversations].id)
            && (rows != [] ==> forall r :: r in rows ==> r.id <= s.newestConversation.value)
            && (forall r :: r in NewestFirst(rows) ==> s.oldestConversation.value <= r.id)
  {
    var s := DeriveStats(rows);
    var c := NewestFirst(rows);
    NewestFirstOrder(rows);
    if rows != [] {
      forall r | r in rows ensures r.id <= s.newestConversation.value {
        var k :| 0 <= k < |rows| && rows[k] == r;
      }
      forall r | r in c ensures s.oldestConversation.value <= r.id {
        var k :| 0 <= k < |c| && c[k] == r;
      }
    }
  }

  /** The recent conversations are the table's five newest rows, newest
      first. */
  lemma StatsRecent(rows: seq<Row>)
    ensures DeriveStats(rows).recentConversations == Reverse(LastN(rows, RecentCount))
  {
    var c := NewestFirst(rows);
    NewestFirstOrder(rows);
    var recent := DeriveStats(rows).recentConversations;
    var expected := Reverse(LastN(rows, RecentCount));
    assert |recent| == |expected|;
    forall i | 0 <= i < |recent| ensures recent[i] == expected[i] {
      assert recent[i] == c[i];
    }
  }

  /** The stats after a failed read are all zero whatever the table holds. */
  lemma FailedLoadIsEmpty(rows: seq<Row>, other: seq<Row>)
    ensures LoadedStats(rows, true) == LoadedStats(other, true)
    ensures LoadedStats(rows, true).totalConversations == 0
    ensures LoadedStats(rows, true).newestConversation.None?
  {
  }

  // --------------------------------------------------------------- deletes

  /** The rows `delete().neq('id', 0)` leaves: those whose id is 0. */
  function IdIsZero(): Row -> bool {
    (r: Row) => r.id == 0
  }

  /** The rows `delete().eq('user_id', user)` leaves. */
  function OtherUser(user: string): Row -> bool {
    (r: Row) => r.user != user
  }

  /** The rows `delete().eq('channel_id', channel)` leaves. */
  function OtherChannel(channel: string): Row -> bool {
    (r: Row) => r.channel != channel
  }

  /** Since the store numbers rows from 1, resetting removes every row. */
  lemma ResetEmptiesTable(rows: seq<Row>)
    requires forall r :: r in rows ==> r.id >= 1
    ensures Filter(IdIsZero(), rows) == []
  {
    FilterKeepsNone(IdIsZero(), rows);
  }

  /** Clearing a user removes exactly that user's rows: the others stay, in
      order, and the distinct-user count loses exactly that user. */
  lemma ClearUserProperties(rows: seq<Row>, user: string)
    ensures var kept := Filter(OtherUser(user), rows);
            && (forall r :: r in kept <==> r in rows && r.user != user)
            && UserSet(kept) == UserSet(rows) - {user}
            && Filter(OtherUser(user), kept) == kept
  {
    var kept := Filter(OtherUser(user), rows);
    forall u ensures u in UserSet(kept) <==> u in UserSet(rows) - {user} {
      if u in UserSet(rows) - {user} {
        var r :| r in rows && r.user == u;
        assert r in kept;
      }
    }
    FilterKeepsAll(OtherUser(user), kept);
  }

  /** Clearing a channel removes exactly that channel's rows, and the
      distinct-channel count loses exactly that channel. */
  lemma ClearChannelProperties(rows: seq<Row>, channel: string)
    ensures var kept := Filter(OtherChannel(channel), rows);
            && (forall r :: r in kept <==> r in rows && r.channel != channel)
            && ChannelSet(kept) == ChannelSet(rows) - {channel}
            && Filter(OtherChannel(channel), kept) == kept
  {
    var kept := Filter(OtherChannel(channel), rows);
    forall c ensures c in ChannelSet(kept) <==> c in ChannelSet(rows) - {channel} {
      if c in ChannelSet(rows) - {channel} {
        var r :| r in rows && r.channel == c;
        assert r in kept;
      }
    }
    FilterKeepsAll(OtherChannel(channel), kept);
  }

  /** Clearing a user and clearing a channel give the same table in either
      order. */
  lemma ClearsCommute(rows: seq<Row>, user: string, channel: string)
    ensures Filter(OtherUser(user), Filter(OtherChannel(channel), rows)) ==
            Filter(OtherChannel(channel), Filter(OtherUser(user), rows))
  {
    FilterCommute(OtherUser(user), OtherChannel(channel), rows);
  }

  const ResetDone := "All conversations have been reset."
  const ResetErrorPrefix := "Error resetting memory: "
  const SelectUserFirst := "Please select a user first"
  const SelectChannelFirst := "Please select a channel first"
  const ClearUserErrorPrefix := "Error clearing user memory: "
  const ClearChannelErrorPrefix := "Error clearing channel memory: "

  function UserCleared(user: string): string {
    "Conversation history cleared for user " + user
  }

  function ChannelCleared(channel: string): string {
    "Conversation history cleared for channel " + channel
  }

  /** The settings table: at most the one row saved with id 1. */
  class SettingsTable {
    var row: Option<AdminSettings>

    constructor ()
      ensures row.None?
    {
      row := None;
    }
  }

  /** The page's state that the handlers read and update. */
  class DashboardPage {
    var instructions: string
    var channelList: seq<string>
    var newChannel: string
    var isSaving: bool
    var saveStatus: Option<SaveStatus>
    var selectedUser: string
    var selectedChannel: string
    var memoryStats: Option<MemoryStats>
    var conversationPreview: seq<Row>

    constructor ()
      ensures instructions == "" && channelList == [] && newChannel == "" && !isSaving
      ensures saveStatus.None? && selectedUser == "" && selectedChannel == ""
      ensures memoryStats.None? && conversationPreview == []
    {
      instructions := "";
      channelList := [];
      newChannel := "";
      isSaving := false;
      saveStatus := None;
      selectedUser := "";
      selectedChannel := "";
      memoryStats := None;
      conversationPreview := [];
    }

    /** `addChannel`. */
    method AddChannel()
      modifies this
      ensures match AddChannelOutcome(old(channelList), old(newChannel))
              case Ignored => unchanged(this)
              case Duplicate =>
                && saveStatus == Some(SaveStatus(Error, ChannelExists))
                && channelList == old(channelList) && newChannel == old(newChannel)
              case Added(list) =>
                && channelList == list && newChannel == "" && saveStatus == old(saveStatus)
      ensures instructions == old(instructions) && isSaving == old(isSaving)
      ensures selectedUser == old(selectedUser) && selectedChannel == old(selectedChannel)
      ensures memoryStats == old(memoryStats) && conversationPreview == old(conversationPreview)
      ensures Distinct(old(channelList)) ==> Distinct(channelList)
    {
      if Distinct(channelList) {
        AddChannelKeepsDistinct(channelList, newChannel);
      }
      var outcome := AddChannelOutcome(channelList, newChannel);
      if outcome.Duplicate? {
        saveStatus := Some(SaveStatus(Error, ChannelExists));
      } else if outcome.Added? {
        channelList := outcome.list;
        newChannel := "";
      }
    }

    /** `removeChannel(index)`. */
    method RemoveChannel(index: int)
      modifies this
      ensures channelList == RemoveAt(old(channelList), index)
      ensures instructions == old(instructions) && newChannel == old(newChannel)
      ensures isSaving == old(isSaving) && saveStatus == old(saveStatus)
      ensures selectedUser == old(selectedUser) && selectedChannel == old(selectedChannel)
      ensures memoryStats == old(memoryStats) && conversationPreview == old(conversationPreview)
    {
      channelList := RemoveAt(channelList, index);
    }

    /** `saveSettings`. The busy flag is raised for the duration of the call
        and lowered at its end, so after it the flag is as before. */
    method SaveSettings(store: SettingsTable, upsertError: Option<string>)
      modifies this, store
      ensures old(isSaving) ==> unchanged(this) && unchanged(store)
      ensures !old(isSaving) ==>
                && !isSaving
                && instructions == old(instructions)
                && match SaveAttempt(old(instructions), old(channelList), old(newChannel), upsertError)
                   case TooLong =>
                     && saveStatus == Some(SaveStatus(Error, InstructionsTooLong))
                     && channelList == old(channelList) && newChannel == old(newChannel)
                     && store.row == old(store.row)
                   case UpsertFailed(message) =>
                     && saveStatus == Some(SaveStatus(Error, message))
                     && channelList == old(channelList) && newChannel == old(newChannel)
                     && store.row == old(store.row)
                   case Written(settings) =>
                     && saveStatus == Some(SaveStatus(Success, SavedNotice))
                     && store.row == Some(settings)
                     && channelList == settings.allowedChannels && newChannel == ""
      ensures selectedUser == old(selectedUser) && selectedChannel == old(selectedChannel)
      ensures memoryStats == old(memoryStats) && conversationPreview == old(conversationPreview)
    {
      if isSaving {
        return;
      }
      isSaving := true;
      saveStatus := None;
      match SaveAttempt(instructions, channelList, newChannel, upsertError) {
        case TooLong =>
          saveStatus := Some(SaveStatus(Error, InstructionsTooLong));
        case UpsertFailed(message) =>
          saveStatus := Some(SaveStatus(Error, message));
        case Written(settings) =>
          store.row := Some(settings);
          channelList := settings.allowedChannels;
          newChannel := "";
          saveStatus := Some(SaveStatus(Success, SavedNotice));
      }
      isSaving := false;
    }

    /** `loadMemoryStats`: the stats and the preview of recent rows. */
    method LoadMemoryStats(table: Table, readFails: bool)
      modifies this
      ensures memoryStats == Some(LoadedStats(table.rows, readFails))
      ensures !readFails ==> conversationPreview == DeriveStats(table.rows).recentConversations
      ensures readFails ==> conversationPreview == old(conversationPreview)
      ensures instructions == old(instructions) && channelList == old(channelList)
      ensures newChannel == old(newChannel) && isSaving == old(isSaving) && saveStatus == old(saveStatus)
      ensures selectedUser == old(selectedUser) && selectedChannel == old(selectedChannel)
    {
      memoryStats := Some(LoadedStats(table.rows, readFails));
      if !readFails {
        conversationPreview := DeriveStats(table.rows).recentConversations;
      }
    }

    /** `resetMemory`: after confirmation, deletes every row with id other
        than 0 (so, in a valid table, all rows) and refreshes the stats. The
        returned text is the alert shown, if any. */
    method ResetMemory(table: Table, confirmed: bool, deleteError: Option<string>, statsReadFails: bool)
      returns (alert: Option<string>)
      requires table.Valid()
      modifies this, table
      ensures table.Valid()
      ensures !confirmed ==> alert.None? && unchanged(this) && unchanged(table)
      ensures confirmed && deleteError.Some? ==>
                alert == Some(ResetErrorPrefix + deleteError.value) && unchanged(this) && unchanged(table)
      ensures confirmed && deleteError.None? ==>
                && alert == Some(ResetDone)
                && table.rows == Filter(IdIsZero(), old(table.rows))
                && table.rows == []
                && memoryStats == Some(LoadedStats([], statsReadFails))
                && (!statsReadFails ==> conversationPreview == DeriveStats(table.rows).recentConversations)
                && (statsReadFails ==> conversationPreview == old(conversationPreview))
      ensures channelList == old(channelList) && instructions == old(instructions)
      ensures newChannel == old(newChannel) && isSaving == old(isSaving) && saveStatus == old(saveStatus)
      ensures selectedUser == old(selectedUser) && selectedChannel == old(selectedChannel)
    {
      if !confirmed {
        return None;
      }
      if deleteError.Some? {
        return Some(ResetErrorPrefix + deleteError.value);
      }
      ResetEmptiesTable(table.rows);
      table.DeleteWhere(IdIsZero());
      alert := Some(ResetDone);
      LoadMemoryStats(table, statsReadFails);
    }

    /** `clearUserMemory`: with a user selected and confirmed, deletes that
        user's rows in every channel and refreshes the stats. */
    method ClearUserMemory(table: Table, confirmed: bool, deleteError: Option<string>, statsReadFails: bool)
      returns (alert: Option<string>)
      requires table.Valid()
      modifies this, table
      ensures table.Valid()
      ensures selectedUser == "" ==>
                alert == Some(SelectUserFirst) && unchanged(this) && unchanged(table)
      ensures selectedUser != "" && !confirmed ==> alert.None? && unchanged(this) && unchanged(table)
      ensures selectedUser != "" && confirmed && deleteError.Some? ==>
                alert == Some(ClearUserErrorPrefix + deleteError.value) && unchanged(this) && unchanged(table)
      ensures selectedUser != "" && confirmed && deleteError.None? ==>
                && alert == Some(UserCleared(selectedUser))
                && table.rows == Filter(OtherUser(selectedUser), old(table.rows))
                && memoryStats == Some(LoadedStats(table.rows, statsReadFails))
                && (!statsReadFails ==> conversationPreview == DeriveStats(table.rows).recentConversations)
                && (statsReadFails ==> conversationPreview == old(conversationPreview))
      ensures channelList == old(channelList) && instructions == old(instructions)
      ensures newChannel == old(newChannel) && isSaving == old(isSaving) && saveStatus == old(saveStatus)
      ensures selectedUser == old(selectedUser) && selectedChannel == old(selectedChannel)
    {
      if selectedUser == "" {
        return Some(SelectUserFirst);
      }
      if !confirmed {
        return None;
      }
      if deleteError.Some? {
        return Some(ClearUserErrorPrefix + deleteError.value);
      }
      table.DeleteWhere(OtherUser(selectedUser));
      alert := Some(UserCleared(selectedUser));
      LoadMemoryStats(table, statsReadFails);
    }

    /** `clearChannelMemory`: with a channel selected and confirmed, deletes
        that channel's rows for every user and refreshes the stats. */
    method ClearChannelMemory(table: Table, confirmed: bool, deleteError: Option<string>, statsReadFails: bool)
      returns (alert: Option<string>)
      requires table.Valid()
      modifies this, table
      ensures table.Valid()
      ensures selectedChannel == "" ==>
                alert == Some(SelectChannelFirst) && unchanged(this) && unchanged(table)
      ensures selectedChannel != "" && !confirmed ==> alert.None? && unchanged(this) && unchanged(table)
      ensures selectedChannel != "" && confirmed && deleteError.Some? ==>
                alert == Some(ClearChannelErrorPrefix + deleteError.value) && unchanged(this) && unchanged(table)
      ensures selectedChannel != "" && confirmed && deleteError.None? ==>
                && alert == Some(ChannelCleared(selectedChannel))
                && table.rows == Filter(OtherChannel(selectedChannel), old(table.rows))
                && memoryStats == Some(LoadedStats(table.rows, statsReadFails))
                && (!statsReadFails ==> conversationPreview == DeriveStats(table.rows).recentConversations)
                && (statsReadFails ==> conversationPreview == old(conversationPreview))
      ensures channelList == old(channelList) && instructions == old(instructions)
      ensures newChannel == old(newChannel) && isSaving == old(isSaving) && saveStatus == old(saveStatus)
      ensures selectedUser == old(selectedUser) && selectedChannel == old(selectedChannel)
    {
      if selectedChannel == "" {
        return Some(SelectChannelFirst);
      }
      if !confirmed {
        return None;
      }
      if deleteError.Some? {
        return Some(ClearChannelErrorPrefix + deleteError.value);
      }
      table.DeleteWhere(OtherChannel(selectedChannel));
      alert := Some(ChannelCleared(selectedChannel));
      LoadMemoryStats(table, statsReadFails);
    }
  }
}
