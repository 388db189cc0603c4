/** The notification dispatcher: one run over schedule changes and reminders. A run is a sequence of
    protocol steps of one process; what the push service answers is left open. */
module Dispatcher {
  import opened Collections
  import opened DeliveryProtocol
  import opened Grouping

  const CHANGE_BATCH_LIMIT: nat := 500

  datatype DeviceRow = DeviceRow(user: User, token: Device)

  datatype Favorite = Favorite(user: User, itemId: string)

  /** A row of the schedule table; `payload` is what the message text is made of. */
  datatype ChangeRow = ChangeRow(scheduleId: int, itemId: string, observedAt: int, payload: string)

  /** An item of a subscriber whose sale date is near, with the days left on the calendar. */
  datatype Reminder = Reminder(itemId: string, bidDate: int, daysLeft: int)

  datatype RunResult = SkippedQuietHours | Completed | AbortedUnavailable | Rethrown

  /** `Raised` is an exception; `unavailable` tells the one that means the push service is down. */
  datatype Outcome = Returned(allDelivered: bool) | Raised(unavailable: bool)

  function UserOf(d: DeviceRow): User { d.user }

  function ItemOf(r: ChangeRow): string { r.itemId }

  function Tokens(rows: seq<DeviceRow>): seq<Device> {
    if rows == [] then [] else [rows[0].token] + Tokens(rows[1..])
  }

  function DevicesFor(devices: seq<DeviceRow>, favorites: set<Favorite>, itemId: string): seq<DeviceRow> {
    if devices == [] then []
    else
      (if Favorite(devices[0].user, itemId) in favorites then [devices[0]] else [])
      + DevicesFor(devices[1..], favorites, itemId)
  }

  function WithoutToken(devices: seq<DeviceRow>, token: Device): seq<DeviceRow> {
    if devices == [] then []
    else (if devices[0].token == token then [] else [devices[0]]) + WithoutToken(devices[1..], token)
  }

  ghost predicate DistinctTokens(devices: seq<DeviceRow>) {
    forall i, j :: 0 <= i < j < |devices| ==> devices[i].token != devices[j].token
  }

  lemma {:induction false} DevicesForSpec(devices: seq<DeviceRow>, favorites: set<Favorite>, itemId: string)
    requires DistinctTokens(devices)
    ensures DistinctTokens(DevicesFor(devices, favorites, itemId))
    ensures forall d :: d in DevicesFor(devices, favorites, itemId) <==>
              d in devices && Favorite(d.user, itemId) in favorites
  {
    if devices != [] {
      var rest := DevicesFor(devices[1..], favorites, itemId);
      DevicesForSpec(devices[1..], favorites, itemId);
      assert devices == [devices[0]] + devices[1..];
      forall i | 0 <= i < |rest|
        ensures rest[i].token != devices[0].token
      {
        assert rest[i] in devices[1..];
        var j :| 0 <= j < |devices[1..]| && devices[1..][j] == rest[i];
        assert devices[j + 1] == rest[i];
      }
    }
  }

  lemma {:induction false} WithoutTokenSpec(devices: seq<DeviceRow>, token: Device)
    requires DistinctTokens(devices)
    ensures DistinctTokens(WithoutToken(devices, token))
    ensures forall d :: d in WithoutToken(devices, token) <==> d in devices && d.token != token
  {
    if devices != [] {
      var rest := WithoutToken(devices[1..], token);
      WithoutTokenSpec(devices[1..], token);
      assert devices == [devices[0]] + devices[1..];
      forall i | 0 <= i < |rest|
        ensures rest[i].token != devices[0].token
      {
        assert rest[i] in devices[1..];
        var j :| 0 <= j < |devices[1..]| && devices[1..][j] == rest[i];
        assert devices[j + 1] == rest[i];
      }
    }
  }

  /** The devices whose tokens are not among these. */
  function Alive(devices: seq<DeviceRow>, dead: set<Device>): seq<DeviceRow> {
    if devices == [] then []
    else (if devices[0].token in dead then [] else [devices[0]]) + Alive(devices[1..], dead)
  }

  lemma {:induction false} AliveTwice(devices: seq<DeviceRow>, dead: set<Device>, more: set<Device>)
    ensures Alive(Alive(devices, dead), more) == Alive(devices, dead + more)
  {
    if devices != [] {
      AliveTwice(devices[1..], dead, more);
      var rest := Alive(devices[1..], dead);
      assert [] + rest == rest && ([devices[0]] + rest)[1..] == rest;
    }
  }

  lemma {:induction false} NoneDead(devices: seq<DeviceRow>)
    ensures Alive(devices, {}) == devices
  {
    if devices != [] { NoneDead(devices[1..]); }
  }

  lemma {:induction false} WithoutIsAlive(devices: seq<DeviceRow>, token: Device)
    ensures WithoutToken(devices, token) == Alive(devices, {token})
  {
    if devices != [] { WithoutIsAlive(devices[1..], token); }
  }

  lemma {:induction false} UserTokensDistinct(devices: seq<DeviceRow>, user: User)
    requires DistinctTokens(devices)
    ensures Distinct(Tokens(Members(devices, UserOf, user)))
    ensures |Tokens(Members(devices, UserOf, user))| == |Members(devices, UserOf, user)|
    ensures forall i :: 0 <= i < |Members(devices, UserOf, user)| ==>
              Tokens(Members(devices, UserOf, user))[i] == Members(devices, UserOf, user)[i].token
  {
    MembersDistinct(devices, user);
    TokensSpec(Members(devices, UserOf, user));
  }

  lemma {:induction false} TokensSpec(rows: seq<DeviceRow>)
    ensures |Tokens(rows)| == |rows|
    ensures forall i :: 0 <= i < |rows| ==> Tokens(rows)[i] == rows[i].token
  {
    if rows != [] {
      TokensSpec(rows[1..]);
    }
  }

  lemma {:induction false} MembersDistinct(devices: seq<DeviceRow>, user: User)
    requires DistinctTokens(devices)
    ensures DistinctTokens(Members(devices, UserOf, user))
  {
    if devices != [] {
      var init, last := devices[..|devices| - 1], devices[|devices| - 1];
      MembersDistinct(init, user);
      var before := Members(init, UserOf, user);
      forall i | 0 <= i < |before|
        ensures before[i].token != last.token
      {
        MembersSpec(init, UserOf, user, before[i]);
        var j :| 0 <= j < |init| && init[j] == before[i];
        assert devices[j] == before[i];
      }
    }
  }

  // ---- the window of changes one run reads

  predicate IsWatched(r: ChangeRow, favorites: set<Favorite>) {
    exists f :: f in favorites && f.itemId == r.itemId
  }

  /** Rows of watched items observed in (since, through], in table order. */
  function WatchedIn(schedule: seq<ChangeRow>, favorites: set<Favorite>, since: int, through: int): seq<ChangeRow> {
    if schedule == [] then []
    else if since < schedule[0].observedAt <= through && IsWatched(schedule[0], favorites)
    then [schedule[0]] + WatchedIn(schedule[1..], favorites, since, through)
    else WatchedIn(schedule[1..], favorites, since, through)
  }

  function Take<T>(s: seq<T>, limit: nat): seq<T> {
    if |s| <= limit then s else s[..limit]
  }

  /** The table is read in order of observation, ties broken by the unique id. */
  ghost predicate InOrder(schedule: seq<ChangeRow>) {
    forall i, j :: 0 <= i < j < |schedule| ==>
      schedule[i].observedAt <= schedule[j].observedAt && schedule[i].scheduleId != schedule[j].scheduleId
  }

  lemma SomebodyWatches(r: ChangeRow, favorites: set<Favorite>)
    ensures IsWatched(r, favorites) <==> exists user :: Favorite(user, r.itemId) in favorites
  {
    if IsWatched(r, favorites) {
      var f :| f in favorites && f.itemId == r.itemId;
      assert f == Favorite(f.user, r.itemId);
    }
  }

  /** What one run may read: the changes after the cursor, up to the watermark, of items somebody watches. */
  lemma {:induction false} WatchedMember(
    schedule: seq<ChangeRow>, favorites: set<Favorite>, since: int, through: int, r: ChangeRow)
    ensures r in WatchedIn(schedule, favorites, since, through) <==>
            r in schedule && since < r.observedAt <= through && exists user :: Favorite(user, r.itemId) in favorites
  {
    SomebodyWatches(r, favorites);
    if schedule != [] {
      WatchedMember(schedule[1..], favorites, since, through, r);
      assert r in schedule <==> r == schedule[0] || r in schedule[1..];
    }
  }

  lemma {:induction false} WatchedInOrder(schedule: seq<ChangeRow>, favorites: set<Favorite>, since: int, through: int)
    requires InOrder(schedule)
    ensures InOrder(WatchedIn(schedule, favorites, since, through))
  {
    if schedule != [] {
      var rest := WatchedIn(schedule[1..], favorites, since, through);
      WatchedInOrder(schedule[1..], favorites, since, through);
      forall i | 0 <= i < |rest|
        ensures schedule[0].observedAt <= rest[i].observedAt && schedule[0].scheduleId != rest[i].scheduleId
      {
        WatchedMember(schedule[1..], favorites, since, through, rest[i]);
        var j :| 0 <= j < |schedule[1..]| && schedule[1..][j] == rest[i];
        assert schedule[j + 1] == rest[i];
      }
    }
  }

  lemma WatchedSpec(schedule: seq<ChangeRow>, favorites: set<Favorite>, since: int, through: int)
    requires InOrder(schedule)
    ensures InOrder(WatchedIn(schedule, favorites, since, through))
    ensures forall r :: r in WatchedIn(schedule, favorites, since, through) <==>
              r in schedule && since < r.observedAt <= through && IsWatched(r, favorites)
  {
    WatchedInOrder(schedule, favorites, since, through);
    forall r
      ensures r in WatchedIn(schedule, favorites, since, through) <==>
                r in schedule && since < r.observedAt <= through && IsWatched(r, favorites)
    {
      WatchedMember(schedule, favorites, since, through, r);
      SomebodyWatches(r, favorites);
    }
  }

  /** What one run reads, if it has a cursor to read from. */
  function BatchAfter(since: Option<int>, watermark: int, schedule: seq<ChangeRow>,
                      favorites: set<Favorite>): seq<ChangeRow> {
    if since.None? then [] else Take(WatchedIn(schedule, favorites, since.value, watermark), CHANGE_BATCH_LIMIT)
  }

  /** The time of the latest change of the item that turned up last. */
  function CheckpointOf(changes: seq<ChangeRow>): int {
    var items := KeyOrder(changes, ItemOf);
    var group := if items == [] then [] else Members(changes, ItemOf, items[|items| - 1]);
    if group == [] then 0 else group[|group| - 1].observedAt
  }

  /** Where the cursor goes when everything read is handled. */
  function CursorAfter(watermark: int, batch: seq<ChangeRow>): int {
    if batch == [] then watermark else CheckpointOf(batch)
  }

  lemma {:induction false} KeyOrderOccurs(changes: seq<ChangeRow>)
    ensures changes != [] ==> KeyOrder(changes, ItemOf) != []
    ensures forall k :: k in KeyOrder(changes, ItemOf) ==> Members(changes, ItemOf, k) != []
  {
    if changes != [] {
      var init, last := changes[..|changes| - 1], changes[|changes| - 1];
      KeyOrderOccurs(init);
    }
  }

  lemma CheckpointInBatch(changes: seq<ChangeRow>)
    requires InOrder(changes) && changes != []
    ensures changes[0].observedAt <= CheckpointOf(changes) <= changes[|changes| - 1].observedAt
  {
    hide Members, KeyOrder;
    KeyOrderOccurs(changes);
    var items := KeyOrder(changes, ItemOf);
    assert items[|items| - 1] in items;
    LatestInBatch(changes, items[|items| - 1]);
  }

  /** Row `k` is the latest change of the item that turned up last: no later row is of that item, and from where the
      item turned up first, at row `f`, only items follow that had turned up by then. */
  ghost predicate IsLatestOfLastItem(changes: seq<ChangeRow>, f: nat, k: nat) {
    && f <= k < |changes| && changes[f].itemId == changes[k].itemId
    && (forall j :: k < j < |changes| ==> changes[j].itemId != changes[k].itemId)
    && IsFirstOfItem(changes, f) && AllSeenBy(changes, f)
  }

  /** The item of row `f` has no earlier row. */
  ghost predicate IsFirstOfItem(changes: seq<ChangeRow>, f: nat)
    requires f < |changes|
  {
    forall i :: 0 <= i < f ==> changes[i].itemId != changes[f].itemId
  }

  /** From row `f` on, every row is of an item that has turned up by then. */
  ghost predicate AllSeenBy(changes: seq<ChangeRow>, f: nat) {
    forall j :: f <= j < |changes| ==> SeenBy(changes, f, changes[j].itemId)
  }

  /** The item has turned up by row `f`. */
  ghost predicate SeenBy(changes: seq<ChangeRow>, f: nat, itemId: string) {
    exists i :: 0 <= i <= f < |changes| && changes[i].itemId == itemId
  }

  lemma SeenPush(init: seq<ChangeRow>, last: ChangeRow, f: nat, itemId: string)
    ensures SeenBy(init, f, itemId) ==> SeenBy(init + [last], f, itemId)
  {
    if SeenBy(init, f, itemId) {
      var i :| 0 <= i <= f < |init| && init[i].itemId == itemId;
      assert (init + [last])[i] == init[i];
    }
  }

  /** Where the item that is listed last turned up first. */
  ghost predicate IsLastItemFirst(changes: seq<ChangeRow>, f: nat) {
    var items := KeyOrder(changes, ItemOf);
    && items != [] && f < |changes| && changes[f].itemId == items[|items| - 1]
    && IsFirstOfItem(changes, f) && AllSeenBy(changes, f)
  }

  lemma FirstPush(init: seq<ChangeRow>, last: ChangeRow, f: nat)
    requires f < |init| && IsFirstOfItem(init, f)
    ensures IsFirstOfItem(init + [last], f)
  {
  }

  lemma AllSeenPush(init: seq<ChangeRow>, last: ChangeRow, f: nat)
    requires f < |init| && AllSeenBy(init, f) && SeenBy(init, f, last.itemId)
    ensures AllSeenBy(init + [last], f)
  {
    hide SeenBy;
    forall j | f <= j <= |init|
      ensures SeenBy(init + [last], f, (init + [last])[j].itemId)
    {
      SeenPush(init, last, f, (init + [last])[j].itemId);
    }
  }

  lemma OldItem(init: seq<ChangeRow>, last: ChangeRow, f: nat, k: nat)
    requires IsLastItemFirst(init, f) && k < |init| && init[k].itemId == last.itemId
    requires KeyOrder(init + [last], ItemOf) == KeyOrder(init, ItemOf)
    ensures IsLastItemFirst(init + [last], f)
  {
    hide KeyOrder, SeenBy, AllSeenBy, IsFirstOfItem;
    OldSeen(init, last, f, k);
    AllSeenPush(init, last, f);
    FirstPush(init, last, f);
  }

  lemma OldSeen(init: seq<ChangeRow>, last: ChangeRow, f: nat, k: nat)
    requires f < |init| && AllSeenBy(init, f) && k < |init| && init[k].itemId == last.itemId
    ensures SeenBy(init, f, last.itemId)
  {
    hide SeenBy;
    if k < f { SeenAt(init, k, f); }
  }

  lemma SeenAt(changes: seq<ChangeRow>, k: nat, f: nat)
    requires k <= f < |changes|
    ensures SeenBy(changes, f, changes[k].itemId)
  {
  }

  lemma NewItem(init: seq<ChangeRow>, last: ChangeRow)
    requires ItemOf(last) !in KeyOrder(init, ItemOf)
    requires KeyOrder(init + [last], ItemOf) == KeyOrder(init, ItemOf) + [last.itemId]
    ensures IsLastItemFirst(init + [last], |init|)
  {
    var changes := init + [last];
    forall i | 0 <= i < |init|
      ensures changes[i].itemId != last.itemId
    {
      EveryKeyIsListed(init, ItemOf, i);
    }
    SeenAt(changes, |init|, |init|);
    hide KeyOrder, SeenBy;
  }

  lemma {:induction false} LastItemFirst(changes: seq<ChangeRow>) returns (f: nat)
    requires changes != []
    ensures IsLastItemFirst(changes, f)
  {
    hide IsLastItemFirst;
    var n := |changes| - 1;
    var init, last := changes[..n], changes[n];
    assert changes == init + [last];
    if ItemOf(last) in KeyOrder(init, ItemOf) {
      var a :| 0 <= a < |KeyOrder(init, ItemOf)| && KeyOrder(init, ItemOf)[a] == ItemOf(last);
      var k := EveryListedKeyOccurs(init, ItemOf, a);
      f := LastItemFirst(init);
      OldItem(init, last, f, k);
    } else {
      f := n;
      NewItem(init, last);
    }
  }

  lemma {:induction false} LastOfItem(changes: seq<ChangeRow>, itemId: string) returns (k: nat)
    requires Members(changes, ItemOf, itemId) != []
    ensures var group := Members(changes, ItemOf, itemId);
            && k < |changes| && changes[k] == group[|group| - 1] && changes[k].itemId == itemId
            && forall j :: k < j < |changes| ==> changes[j].itemId != itemId
  {
    var n := |changes| - 1;
    if changes[n].itemId == itemId {
      k := n;
    } else {
      k := LastOfItem(changes[..n], itemId);
    }
  }

  lemma CheckpointIsLatestOfLastItem(changes: seq<ChangeRow>) returns (f: nat, k: nat)
    requires changes != []
    ensures IsLatestOfLastItem(changes, f, k) && CheckpointOf(changes) == changes[k].observedAt
  {
    KeyOrderOccurs(changes);
    var items := KeyOrder(changes, ItemOf);
    f := LastItemFirst(changes);
    assert items[|items| - 1] in items;
    k := LastOfItem(changes, items[|items| - 1]);
    hide KeyOrder, Members;
  }

  lemma LatestInBatch(changes: seq<ChangeRow>, itemId: string)
    requires InOrder(changes) && Members(changes, ItemOf, itemId) != []
    ensures var group := Members(changes, ItemOf, itemId);
            var latest := group[|group| - 1];
            && latest in changes && latest.itemId == itemId
            && changes[0].observedAt <= latest.observedAt <= changes[|changes| - 1].observedAt
  {
    var group := Members(changes, ItemOf, itemId);
    var latest := group[|group| - 1];
    MembersSpec(changes, ItemOf, itemId, latest);
    var i :| 0 <= i < |changes| && changes[i] == latest;
  }

  /** The batch limit cuts inside the rows of one time, and the item that turned up last has a change of that
      time before the cut. */
  predicate CutsInside(watched: seq<ChangeRow>) {
    && |watched| > CHANGE_BATCH_LIMIT
    && CheckpointOf(watched[..CHANGE_BATCH_LIMIT]) == watched[CHANGE_BATCH_LIMIT].observedAt
  }

  /** A run that handles all it read passes over a change exactly when the limit cuts inside its rows. */
  lemma NothingPassedExactlyWhen(schedule: seq<ChangeRow>, favorites: set<Favorite>, since: int, watermark: int)
    requires InOrder(schedule) && since < watermark
    ensures var watched := WatchedIn(schedule, favorites, since, watermark);
            var batch := BatchAfter(Some(since), watermark, schedule, favorites);
            && since < CursorAfter(watermark, batch) <= watermark
            && ((forall r :: r in WatchedIn(schedule, favorites, since, CursorAfter(watermark, batch)) ==> r in batch)
                <==> !CutsInside(watched))
  {
    hide WatchedIn, CheckpointOf;
    var watched := WatchedIn(schedule, favorites, since, watermark);
    var batch := BatchAfter(Some(since), watermark, schedule, favorites);
    var cursor := CursorAfter(watermark, batch);
    WatchedSpec(schedule, favorites, since, watermark);
    WatchedSpec(schedule, favorites, since, cursor);
    if batch != [] {
      assert batch[0] in watched && watched[|batch| - 1] in watched;
      CheckpointInBatch(batch);
    }
    forall r | r in WatchedIn(schedule, favorites, since, cursor)
      ensures r in batch || CutsInside(watched)
    {
      var i :| 0 <= i < |watched| && watched[i] == r;
      if i < |batch| { assert batch[i] == r; }
    }
    if CutsInside(watched) {
      var r := watched[CHANGE_BATCH_LIMIT];
      assert r in watched;
      assert r !in batch;
    }
  }

  // ---- the limit does cut inside

  lemma {:induction false} AllWatched(schedule: seq<ChangeRow>, favorites: set<Favorite>, since: int, through: int)
    requires forall r :: r in schedule ==> since < r.observedAt <= through && IsWatched(r, favorites)
    ensures WatchedIn(schedule, favorites, since, through) == schedule
  {
    if schedule != [] {
      assert schedule[0] in schedule && forall r :: r in schedule[1..] ==> r in schedule;
      AllWatched(schedule[1..], favorites, since, through);
    }
  }

  ghost predicate DistinctItems(changes: seq<ChangeRow>) {
    forall i, j :: 0 <= i < j < |changes| ==> changes[i].itemId != changes[j].itemId
  }

  /** Where every item has one change, the checkpoint is the time of the last of them. */
  lemma DistinctItemsCheckpoint(changes: seq<ChangeRow>)
    requires DistinctItems(changes) && changes != []
    ensures CheckpointOf(changes) == changes[|changes| - 1].observedAt
  {
    var init, last := changes[..|changes| - 1], changes[|changes| - 1];
    assert forall x :: x in init ==> ItemOf(x) != ItemOf(last);
    NoMembers(init, ItemOf, ItemOf(last));
    KeyOrderOccurs(init);
  }

  function ItemName(i: nat): string { seq(i, _ => 'a') }

  /** One change each of so many items, at rising times but for the last two of the first 501, which share one. */
  function RisingRows(n: nat): seq<ChangeRow> {
    seq(n, (i: nat) => ChangeRow(i, ItemName(i), if i < CHANGE_BATCH_LIMIT then i + 1 else i, ""))
  }

  function FavoriteRows(user: User, rows: seq<ChangeRow>): set<Favorite> {
    set r | r in rows :: Favorite(user, r.itemId)
  }

  /** One row more than the limit, each of another item and no more than two of one time: the last is passed over. */
  lemma LimitPassesOver(user: User)
    ensures var rows := RisingRows(CHANGE_BATCH_LIMIT + 1); var favorites := FavoriteRows(user, rows);
            var batch, skipped := BatchAfter(Some(0), CHANGE_BATCH_LIMIT, rows, favorites), rows[CHANGE_BATCH_LIMIT];
            && DistinctItems(rows) && InOrder(rows)
            && (forall i :: 0 <= i < CHANGE_BATCH_LIMIT - 1 ==> rows[i].observedAt < rows[i + 1].observedAt)
            && CutsInside(WatchedIn(rows, favorites, 0, CHANGE_BATCH_LIMIT))
            && CursorAfter(CHANGE_BATCH_LIMIT, batch) == skipped.observedAt
            && skipped in WatchedIn(rows, favorites, 0, CHANGE_BATCH_LIMIT) && skipped !in batch
  {
    hide KeyOrder, Members, WatchedIn, CheckpointOf;
    var rows := RisingRows(CHANGE_BATCH_LIMIT + 1);
    var favorites := FavoriteRows(user, rows);
    forall r | r in rows
      ensures 0 < r.observedAt <= CHANGE_BATCH_LIMIT && IsWatched(r, favorites)
    {
      assert Favorite(user, r.itemId) in favorites;
    }
    AllWatched(rows, favorites, 0, CHANGE_BATCH_LIMIT);
    forall i, j | 0 <= i < j < |rows|
      ensures rows[i].itemId != rows[j].itemId
    {
      assert |ItemName(i)| == i && |ItemName(j)| == j;
    }
    DistinctItemsCheckpoint(rows[..CHANGE_BATCH_LIMIT]);
    assert rows[CHANGE_BATCH_LIMIT] in rows;
  }

  // ---- over many runs

  /** The part of the schedule one run looked at, and the cursor before and after. */
  datatype Window = Window(since: Option<int>, until: Option<int>, watermark: int, schedule: seq<ChangeRow>,
                           favorites: set<Favorite>)
  {
    function Batch(): seq<ChangeRow> { BatchAfter(since, watermark, schedule, favorites) }
  }

  /** Each run starts from the cursor the one before left, and none moves it back. */
  ghost predicate IsHistory(windows: seq<Window>) {
    && (forall i :: 0 <= i < |windows| && windows[i].since.Some? ==>
          windows[i].until.Some? && windows[i].since.value <= windows[i].until.value)
    && forall i :: 0 < i < |windows| ==> windows[i].since == windows[i - 1].until
  }

  lemma HistoryPush(windows: seq<Window>, w: Window)
    requires IsHistory(windows) && (windows != [] ==> w.since == windows[|windows| - 1].until)
    requires w.since.Some? ==> w.until.Some? && w.since.value <= w.until.value
    ensures IsHistory(windows + [w])
  {
  }

  lemma {:induction false} CursorsRise(windows: seq<Window>, i: nat, j: nat)
    requires IsHistory(windows) && i < j < |windows| && windows[i].until.Some?
    ensures windows[j].since.Some? && windows[i].until.value <= windows[j].since.value
  {
    if i < j - 1 { CursorsRise(windows, i, j - 1); }
  }

  /** What the cursor has passed is never read again, by any later run. */
  lemma PassedOverForGood(windows: seq<Window>, i: nat, j: nat, r: ChangeRow)
    requires IsHistory(windows) && i < j < |windows|
    requires windows[i].until.Some? && r.observedAt <= windows[i].until.value
    ensures r !in windows[j].Batch()
  {
    var w := windows[j];
    CursorsRise(windows, i, j);
    WatchedMember(w.schedule, w.favorites, w.since.value, w.watermark, r);
    var watched := WatchedIn(w.schedule, w.favorites, w.since.value, w.watermark);
    assert forall x :: x in w.Batch() ==> x in watched;
  }

  // ---- bookkeeping about steps

  ghost predicate NoFailure(steps: seq<Step>) {
    forall i :: 0 <= i < |steps| && steps[i].Answer? ==> !steps[i].reply.Failed?
  }

  ghost predicate NoThrow(steps: seq<Step>) {
    forall i :: 0 <= i < |steps| && steps[i].Answer? ==> !steps[i].reply.Thrown?
  }

  ghost predicate Throws(steps: seq<Step>, unavailable: bool) {
    exists i :: 0 <= i < |steps| && steps[i].Answer? && steps[i].reply == Thrown(unavailable)
  }

  /** The outcome is an exception exactly when an answer was one, and the same one. */
  ghost predicate RaisesAsThrown(outcome: Outcome, steps: seq<Step>) {
    forall unavailable :: outcome == Raised(unavailable) <==> Throws(steps, unavailable)
  }

  lemma ThrowsAppend(first: seq<Step>, second: seq<Step>, unavailable: bool)
    ensures Throws(first + second, unavailable) <==> Throws(first, unavailable) || Throws(second, unavailable)
  {
    var both := first + second;
    assert forall i :: 0 <= i < |first| ==> both[i] == first[i];
    if i :| 0 <= i < |second| && second[i].Answer? && second[i].reply == Thrown(unavailable) {
      assert both[|first| + i] == second[i];
    }
  }

  lemma RaisesAfter(first: seq<Step>, second: seq<Step>, calm: Outcome, outcome: Outcome)
    requires RaisesAsThrown(calm, first) && calm.Returned? && RaisesAsThrown(outcome, second)
    ensures RaisesAsThrown(outcome, first + second)
  {
    hide Throws;
    forall unavailable
      ensures outcome == Raised(unavailable) <==> Throws(first + second, unavailable)
    {
      ThrowsAppend(first, second, unavailable);
      assert calm != Raised(unavailable);
    }
  }

  lemma RaisesTheSame(outcome: Outcome, other: Outcome, steps: seq<Step>)
    requires RaisesAsThrown(outcome, steps) && outcome.Returned? && other.Returned?
    ensures RaisesAsThrown(other, steps)
  {
    hide Throws;
    assert outcome != Raised(true) && outcome != Raised(false);
  }

  lemma NothingThrown()
    ensures forall allDelivered :: RaisesAsThrown(Returned(allDelivered), [])
  {
  }

  /** The devices that were answered to be unknown. */
  ghost function DeadIn(s: State, steps: seq<Step>): set<Device> {
    if steps == [] then {}
    else
      var init, last := steps[..|steps| - 1], steps[|steps| - 1];
      DeadIn(s, init) + Died(Run(s, init), last)
  }

  ghost function Died(s: State, step: Step): set<Device> {
    if step.Answer? && step.reply.Unregistered? && step.process in s.jobs && s.jobs[step.process].pending != []
    then {s.jobs[step.process].pending[0]} else {}
  }

  /** A device is among them exactly when it was the one asked for when an answer was that it is not registered. */
  lemma {:induction false} DeadExactlyWhen(s: State, steps: seq<Step>, token: Device)
    ensures token in DeadIn(s, steps)
            <==> exists i :: 0 <= i < |steps| && steps[i].Answer? && steps[i].reply.Unregistered?
                             && steps[i].process in Run(s, steps[..i]).jobs
                             && var pending := Run(s, steps[..i]).jobs[steps[i].process].pending;
                                pending != [] && pending[0] == token
  {
    hide Run;
    if steps != [] {
      var init := steps[..|steps| - 1];
      DeadExactlyWhen(s, init, token);
      assert forall i :: 0 <= i < |init| ==> init[i] == steps[i] && init[..i] == steps[..i];
    }
  }

  lemma DeadPush(s: State, steps: seq<Step>, step: Step)
    ensures DeadIn(s, steps + [step]) == DeadIn(s, steps) + Died(Run(s, steps), step)
  {
    assert (steps + [step])[..|steps|] == steps;
  }

  lemma {:induction false} DeadAppend(s: State, first: seq<Step>, second: seq<Step>)
    ensures DeadIn(s, first + second) == DeadIn(s, first) + DeadIn(Run(s, first), second)
    decreases |second|
  {
    hide Run, Died;
    if second == [] {
      assert first + second == first;
    } else {
      var init, last := second[..|second| - 1], second[|second| - 1];
      assert first + second == (first + init) + [last];
      DeadAppend(s, first, init);
      DeadPush(s, first + init, last);
      RunAppend(s, first, init);
    }
  }

  /** The steps are a run of the protocol from the one state to the other, and of the devices exactly those are gone
      that were answered to be unknown on the way. */
  ghost predicate Went(s: State, devices: seq<DeviceRow>, steps: seq<Step>, s': State, devices': seq<DeviceRow>) {
    AreListings(steps) && s' == Run(s, steps) && devices' == Alive(devices, DeadIn(s, steps))
  }

  lemma WentNowhere(s: State, devices: seq<DeviceRow>)
    ensures Went(s, devices, [], s, devices)
  {
    NoneDead(devices);
    RunNothing(s);
  }

  lemma WentOn(s: State, devices: seq<DeviceRow>, first: seq<Step>, t: State, between: seq<DeviceRow>,
               second: seq<Step>, u: State, after: seq<DeviceRow>)
    requires Went(s, devices, first, t, between) && Went(t, between, second, u, after)
    ensures Went(s, devices, first + second, u, after)
  {
    hide Run, DeadIn, Alive;
    RunAppend(s, first, second);
    DeadAppend(s, first, second);
    AliveTwice(devices, DeadIn(s, first), DeadIn(t, second));
    ListingsAppend(first, second);
  }

  /** The steps claim the user's notification for the devices that were listed. */
  ghost predicate Attempts(steps: seq<Step>, user: User, key: Key, tokens: seq<Device>) {
    exists i :: 0 <= i < |steps| && steps[i] == Claim(0, user, key, tokens)
  }

  lemma AttemptsAppend(first: seq<Step>, second: seq<Step>, user: User, key: Key, tokens: seq<Device>)
    requires Attempts(first, user, key, tokens) || Attempts(second, user, key, tokens)
    ensures Attempts(first + second, user, key, tokens)
  {
    var claim := Claim(0, user, key, tokens);
    if Attempts(first, user, key, tokens) {
      var i :| 0 <= i < |first| && first[i] == claim;
      assert (first + second)[i] == claim;
    } else {
      var i :| 0 <= i < |second| && second[i] == claim;
      assert (first + second)[|first| + i] == claim;
    }
  }

  /** The first `n` groups were attempted, each user's notification for all of the user's devices. */
  ghost predicate GroupsAttempted(steps: seq<Step>, groups: seq<(User, seq<DeviceRow>)>, n: nat, key: Key) {
    forall j :: 0 <= j < |groups| && j < n ==> Attempts(steps, groups[j].0, key, Tokens(groups[j].1))
  }

  lemma NoGroupAttempted(groups: seq<(User, seq<DeviceRow>)>, key: Key)
    ensures GroupsAttempted([], groups, 0, key)
  {
  }

  lemma GroupsAttemptedPush(steps: seq<Step>, more: seq<Step>, groups: seq<(User, seq<DeviceRow>)>, n: nat, key: Key)
    requires n < |groups| && GroupsAttempted(steps, groups, n, key)
    requires Attempts(more, groups[n].0, key, Tokens(groups[n].1))
    ensures GroupsAttempted(steps + more, groups, n + 1, key)
  {
    hide Attempts, Tokens;
    forall j | 0 <= j <= n { AttemptsAppend(steps, more, groups[j].0, key, Tokens(groups[j].1)); }
  }

  lemma AllGroupsAttempted(steps: seq<Step>, groups: seq<(User, seq<DeviceRow>)>, key: Key)
    requires GroupsAttempted(steps, groups, |groups|, key)
    ensures forall j :: 0 <= j < |groups| ==> Attempts(steps, groups[j].0, key, Tokens(groups[j].1))
  {
  }

  lemma AnswersAppend(first: seq<Step>, second: seq<Step>)
    ensures NoFailure(first + second) <==> NoFailure(first) && NoFailure(second)
    ensures NoThrow(first + second) <==> NoThrow(first) && NoThrow(second)
  {
    var both := first + second;
    assert forall i :: 0 <= i < |first| ==> both[i] == first[i];
    assert forall i :: 0 <= i < |second| ==> both[|first| + i] == second[i];
    if NoFailure(both) {
      forall i | 0 <= i < |second| && second[i].Answer?
        ensures !second[i].reply.Failed?
      {
        assert both[|first| + i].Answer?;
      }
    }
    if NoThrow(both) {
      forall i | 0 <= i < |second| && second[i].Answer?
        ensures !second[i].reply.Thrown?
      {
        assert both[|first| + i].Answer?;
      }
    }
  }

  lemma ListingsAppend(first: seq<Step>, second: seq<Step>)
    requires AreListings(first) && AreListings(second)
    ensures AreListings(first + second)
  {
  }

  lemma SendsAreListings(steps: seq<Step>)
    requires forall i :: 0 <= i < |steps| ==> !steps[i].Claim?
    ensures AreListings(steps)
  {
  }

  /** A claim alone. */
  lemma ClaimStep(s: State, user: User, key: Key, tokens: seq<Device>)
    requires s.jobs == map[] && Distinct(tokens)
    ensures var steps, d := [Claim(0, user, key, tokens)], Delivery(user, key);
            && AreListings(steps) && NoThrow(steps) && NoFailure(steps) && Attempts(steps, user, key, tokens)
            && Run(s, steps) == if d in s.records then s
                                else State(s.records + {d}, map[0 := Job(user, key, tokens, false)], s.log)
  {
    var claim := Claim(0, user, key, tokens);
    RunPush(s, [], claim);
    assert [] + [claim] == [claim] && [claim][0] == claim;
  }

  /** The process' own job after one more answer, and after the end of the send. */
  lemma AnswerStep(start: State, steps: seq<Step>, records: set<Delivery>, job: Job, log: seq<SentEvent>, reply: Reply)
    requires Run(start, steps) == State(records, map[0 := job], log) && job.pending != []
    ensures Run(start, steps + [Answer(0, reply)])
            == State(records, map[0 := AnswerJob(job, reply)],
                     if reply.Sent? then log + [SentEvent(job.user, job.pending[0], job.key)] else log)
  {
    RunPush(start, steps, Answer(0, reply));
  }

  lemma FinishStep(start: State, steps: seq<Step>, records: set<Delivery>, job: Job, log: seq<SentEvent>)
    requires Run(start, steps) == State(records, map[0 := job], log) && job.pending == []
    ensures Run(start, steps + [Finish(0)])
            == State(if job.anySent then records else records - {job.Target()}, map[], log)
  {
    RunPush(start, steps, Finish(0));
    assert map[0 := job] - {0} == map[];
  }

  lemma NoAnswer()
    ensures NoFailure([Finish(0)]) && NoThrow([Finish(0)])
    ensures NoFailure([]) && NoThrow([])
  {
  }

  lemma OneAnswer(reply: Reply)
    ensures NoFailure([Answer(0, reply)]) <==> !reply.Failed?
    ensures NoThrow([Answer(0, reply)]) <==> !reply.Thrown?
  {
    assert [Answer(0, reply)][0] == Answer(0, reply);
  }

  /** Who is found unknown by one more answer, or by the end of the send. */
  lemma AnswerDies(start: State, steps: seq<Step>, records: set<Delivery>, job: Job, log: seq<SentEvent>, reply: Reply)
    requires Run(start, steps) == State(records, map[0 := job], log) && job.pending != []
    ensures DeadIn(start, steps + [Answer(0, reply)])
            == if reply.Unregistered? then DeadIn(start, steps) + {job.pending[0]} else DeadIn(start, steps)
  {
    hide Run;
    DeadPush(start, steps, Answer(0, reply));
  }

  lemma FinishDies(start: State, steps: seq<Step>)
    ensures DeadIn(start, steps + [Finish(0)]) == DeadIn(start, steps)
  {
    hide Run;
    DeadPush(start, steps, Finish(0));
  }

  lemma ClaimDies(start: State, user: User, key: Key, tokens: seq<Device>)
    ensures DeadIn(start, [Claim(0, user, key, tokens)]) == {}
  {
    var steps := [Claim(0, user, key, tokens)];
    assert steps[..0] == [] && DeadIn(start, steps[..0]) == {};
  }

  lemma NobodyDies(start: State, devices: seq<DeviceRow>)
    ensures devices == Alive(devices, DeadIn(start, []))
  {
    NoneDead(devices);
  }

  lemma EndThrowsNothing(steps: seq<Step>, outcome: Outcome)
    requires RaisesAsThrown(outcome, steps)
    ensures RaisesAsThrown(outcome, steps + [Finish(0)])
  {
    forall unavailable { ThrowsAppend(steps, [Finish(0)], unavailable); }
    assert [Finish(0)][0] == Finish(0);
  }

  lemma ClaimThrowsNothing(user: User, key: Key, tokens: seq<Device>)
    ensures forall allDelivered :: RaisesAsThrown(Returned(allDelivered), [Claim(0, user, key, tokens)])
  {
    assert [Claim(0, user, key, tokens)][0].Claim?;
  }

  lemma OneMayThrow(step: Step, calm: bool)
    requires step.Answer? ==> !step.reply.Thrown? || calm
    ensures var thrown := step.Answer? && step.reply.Thrown?;
            RaisesAsThrown(if thrown then Raised(step.reply.unavailable) else Returned(calm), [step])
  {
    assert [step][0] == step;
  }

  /** The groups of an item's subscribers: each its user's devices, and one for every subscriber with a device. */
  lemma SubscriberGroups(devices: seq<DeviceRow>, favorites: set<Favorite>, itemId: string,
                         groups: seq<(User, seq<DeviceRow>)>)
    requires DistinctTokens(devices) && IsGrouping(groups, DevicesFor(devices, favorites, itemId), UserOf)
    ensures forall i, j :: 0 <= i < j < |groups| ==> groups[i].0 != groups[j].0
    ensures forall j :: 0 <= j < |groups| ==>
              && groups[j].1 == Members(DevicesFor(devices, favorites, itemId), UserOf, groups[j].0)
              && Distinct(Tokens(groups[j].1)) && Favorite(groups[j].0, itemId) in favorites
              && exists d :: d in devices && Favorite(d.user, itemId) in favorites && d.user == groups[j].0
    ensures forall d :: d in devices && Favorite(d.user, itemId) in favorites ==>
              exists j :: 0 <= j < |groups| && groups[j].0 == d.user
  {
    hide Members, Tokens, Distinct, DevicesFor, KeyOrder;
    var subscribed := DevicesFor(devices, favorites, itemId);
    DevicesForSpec(devices, favorites, itemId);
    forall j | 0 <= j < |groups|
      ensures Distinct(Tokens(groups[j].1)) && Favorite(groups[j].0, itemId) in favorites
      ensures exists d :: d in devices && Favorite(d.user, itemId) in favorites && d.user == groups[j].0
    {
      UserTokensDistinct(subscribed, groups[j].0);
      MembersSpec(subscribed, UserOf, groups[j].0, groups[j].1[0]);
    }
    forall d | d in devices && Favorite(d.user, itemId) in favorites
      ensures exists j :: 0 <= j < |groups| && groups[j].0 == d.user
    {
      assert d in subscribed && HasGroup(groups, UserOf(d));
    }
  }

  class NotificationDispatcher {
    var records: set<Delivery>
    var devices: seq<DeviceRow>
    var favorites: set<Favorite>
    var cursor: Option<int>
    ghost var log: seq<SentEvent>

    /** The runs so far that were not in quiet hours. */
    ghost var windows: seq<Window>

    ghost function Snapshot(): State
      reads this
    {
      State(records, map[], log)
    }

    /** The table and the log are those of some interleaving that left no send open, and the cursor is where the
        runs so far have moved it. */
    ghost predicate Valid()
      reads this
    {
      && Inv(Snapshot()) && DistinctTokens(devices)
      && IsHistory(windows) && cursor == if windows == [] then None else windows[|windows| - 1].until
    }

    constructor (devices: seq<DeviceRow>, favorites: set<Favorite>)
      requires DistinctTokens(devices)
      ensures Valid() && records == {} && log == [] && windows == []
      ensures this.devices == devices && this.favorites == favorites
    {
      this.records, this.devices, this.favorites, this.cursor := {}, devices, favorites, None;
      this.log, this.windows := [], [];
    }

    method ClaimDelivery(user: User, key: Key) returns (claimed: bool)
      modifies this`records
      ensures claimed <==> Delivery(user, key) !in old(records)
      ensures records == old(records) + {Delivery(user, key)}
    {
      claimed := Delivery(user, key) !in records;
      records := records + {Delivery(user, key)};
    }

    method ReleaseDelivery(user: User, key: Key)
      modifies this`records
      ensures records == old(records) - {Delivery(user, key)}
    {
      records := records - {Delivery(user, key)};
    }

    /** Sends to the devices of one user after a claim, and releases the claim if none was reached,
        also when an exception ends the sending. */
    method SendToUser(user: User, key: Key, rows: seq<DeviceRow>)
      returns (outcome: Outcome, anySent: bool, ghost steps: seq<Step>)
      requires DistinctTokens(devices) && Delivery(user, key) in records
      modifies this`records, this`devices, this`log
      ensures Snapshot() == Run(State(old(records), map[0 := Job(user, key, Tokens(rows), false)], old(log)), steps)
      ensures forall i :: 0 <= i < |steps| ==> !steps[i].Claim?
      ensures records == if anySent then old(records) else old(records) - {Delivery(user, key)}
      ensures outcome.Raised? <==> !NoThrow(steps)
      ensures RaisesAsThrown(outcome, steps)
      ensures outcome == Returned(true) <==> NoThrow(steps) && NoFailure(steps)
      ensures DistinctTokens(devices) && forall d :: d in devices ==> d in old(devices)
      ensures var start := State(old(records), map[0 := Job(user, key, Tokens(rows), false)], old(log));
              devices == Alive(old(devices), DeadIn(start, steps))
    {
      hide Run, Next, NoFailure, NoThrow, DistinctTokens, WithoutToken, DeadIn, Alive, RaisesAsThrown;
      outcome, anySent, steps := Returned(true), false, [];
      NoAnswer();
      NothingThrown();
      ghost var start := State(records, map[0 := Job(user, key, Tokens(rows), false)], log);
      RunNothing(start);
      NobodyDies(start, devices);
      var i := 0;
      while i < |rows|
        decreases |rows| - i
        invariant 0 <= i <= |rows|
        invariant Run(start, steps) == State(records, map[0 := Job(user, key, Tokens(rows[i..]), anySent)], log)
        invariant records == old(records)
        invariant forall k :: 0 <= k < |steps| ==> !steps[k].Claim?
        invariant outcome.Returned? && NoThrow(steps) && (outcome == Returned(true) <==> NoFailure(steps))
        invariant RaisesAsThrown(outcome, steps)
        invariant DistinctTokens(devices) && forall d :: d in devices ==> d in old(devices)
        invariant devices == Alive(old(devices), DeadIn(start, steps))
      {
        var token := rows[i].token;
        assert rows[i..][1..] == rows[i + 1..];
        assert Tokens(rows[i..])[1..] == Tokens(rows[i + 1..]);
        var reply: Reply := *;
        AnswerStep(start, steps, records, Job(user, key, Tokens(rows[i..]), anySent), log, reply);
        AnswerDies(start, steps, records, Job(user, key, Tokens(rows[i..]), anySent), log, reply);
        AliveTwice(old(devices), DeadIn(start, steps), {token});
        AnswersAppend(steps, [Answer(0, reply)]);
        OneAnswer(reply);
        OneMayThrow(Answer(0, reply), true);
        RaisesAfter(steps, [Answer(0, reply)], outcome,
                    if reply.Thrown? then Raised(reply.unavailable) else Returned(true));
        steps := steps + [Answer(0, reply)];
        match reply {
          case Sent =>
            anySent := true;
            log := log + [SentEvent(user, token, key)];
          case Unregistered =>
            WithoutTokenSpec(devices, token);
            WithoutIsAlive(devices, token);
            devices := WithoutToken(devices, token);
          case Failed =>
            outcome := Returned(false);
          case Thrown(unavailable) =>
            outcome := Raised(unavailable);
            break;
        }
        RaisesTheSame(Returned(true), outcome, steps);
        i := i + 1;
      }
      assert Tokens(rows[|rows|..]) == [];
      FinishStep(start, steps, records, Job(user, key, [], anySent), log);
      AnswersAppend(steps, [Finish(0)]);
      FinishDies(start, steps);
      EndThrowsNothing(steps, outcome);
      steps := steps + [Finish(0)];
      if !anySent {
        ReleaseDelivery(user, key);
      }
    }

    /** Claims one user's notification and sends it; a claim that was taken before is left alone. */
    method DeliverToUser(user: User, key: Key, rows: seq<DeviceRow>) returns (outcome: Outcome, ghost steps: seq<Step>)
      requires Valid() && Distinct(Tokens(rows))
      modifies this`records, this`devices, this`log
      ensures Valid()
      ensures Went(old(Snapshot()), old(devices), steps, Snapshot(), devices)
      ensures records == old(records) || records == old(records) + {Delivery(user, key)}
      ensures Attempts(steps, user, key, Tokens(rows))
      ensures (outcome.Raised? <==> !NoThrow(steps)) && RaisesAsThrown(outcome, steps)
      ensures outcome == Returned(true) <==> NoThrow(steps) && NoFailure(steps) && Delivery(user, key) in records
      ensures forall d :: d in devices ==> d in old(devices)
    {
      hide Inv, Run, Next, Distinct, DistinctTokens, IsHistory, NoThrow, NoFailure, Attempts, AreListings, Tokens,
           DeadIn, Alive, RaisesAsThrown;
      ghost var start, known := Snapshot(), devices;
      steps := [Claim(0, user, key, Tokens(rows))];
      ClaimStep(start, user, key, Tokens(rows));
      ClaimDies(start, user, key, Tokens(rows));
      NoneDead(devices);
      ClaimThrowsNothing(user, key, Tokens(rows));
      var claimed := ClaimDelivery(user, key);
      if !claimed {
        assert records == old(records);
        return Returned(true), steps;
      }
      var anySent;
      ghost var sends;
      outcome, anySent, sends := SendToUser(user, key, rows);
      RunAppend(start, steps, sends);
      DeadAppend(start, steps, sends);
      AliveTwice(known, DeadIn(start, steps), DeadIn(Run(start, steps), sends));
      RaisesAfter(steps, sends, Returned(true), outcome);
      AnswersAppend(steps, sends);
      AttemptsAppend(steps, sends, user, key, Tokens(rows));
      SendsAreListings(sends);
      ListingsAppend(steps, sends);
      steps := steps + sends;
      RunKeepsInv(start, steps);
      if !anySent && outcome.Returned? {
        RaisesTheSame(outcome, Returned(false), steps);
        outcome := Returned(false);
      }
    }

    /** One notification to every subscriber of an item. `allDelivered` is false when the notification
        has to be tried again. */
    method Deliver(itemId: string, key: Key) returns (outcome: Outcome, ghost steps: seq<Step>)
      requires Valid()
      modifies this`records, this`devices, this`log
      ensures Valid()
      ensures Went(old(Snapshot()), old(devices), steps, Snapshot(), devices)
      ensures old(records) <= records
      ensures forall d :: d in records && d !in old(records) ==> d.key == key && Favorite(d.user, itemId) in favorites
      ensures forall d :: d in devices ==> d in old(devices)
      ensures (outcome.Raised? <==> !NoThrow(steps)) && RaisesAsThrown(outcome, steps)
      ensures outcome.Returned? ==>
                forall d :: d in old(devices) && Favorite(d.user, itemId) in favorites ==>
                  var own := Members(DevicesFor(old(devices), favorites, itemId), UserOf, d.user);
                  Attempts(steps, d.user, key, Tokens(own))
      ensures outcome == Returned(true) <==>
                && NoThrow(steps) && NoFailure(steps)
                && forall d :: d in old(devices) && Favorite(d.user, itemId) in favorites ==>
                    Delivery(d.user, key) in records
    {
      hide Inv, Run, Next, Members, NoFailure, NoThrow, Attempts, Tokens, KeyOrder, DevicesFor, IsHistory,
           DistinctTokens, IsGrouping, Distinct, AreListings, Went, RaisesAsThrown, GroupsAttempted;
      ghost var start, known := Snapshot(), devices;
      var subscribed := DevicesFor(devices, favorites, itemId);
      var groups := GroupBy(subscribed, UserOf);
      SubscriberGroups(devices, favorites, itemId, groups);
      var allDelivered := true;
      steps := [];
      RunNothing(start);
      WentNowhere(start, devices);
      NothingThrown();
      NoGroupAttempted(groups, key);
      for i := 0 to |groups|
        invariant Valid()
        invariant Went(start, known, steps, Snapshot(), devices) && RaisesAsThrown(Returned(allDelivered), steps)
        invariant old(records) <= records
        invariant forall d :: d in records && d !in old(records) ==>
                    d.key == key && Favorite(d.user, itemId) in favorites
        invariant forall d :: d in devices ==> d in known
        invariant NoThrow(steps)
        invariant allDelivered <==> NoFailure(steps) && forall j :: 0 <= j < i ==> Delivery(groups[j].0, key) in records
        invariant GroupsAttempted(steps, groups, i, key)
      {
        var delivered;
        ghost var more;
        ghost var between, left := Snapshot(), devices;
        delivered, more := DeliverToUser(groups[i].0, key, groups[i].1);
        WentOn(start, known, steps, between, left, more, Snapshot(), devices);
        RaisesAfter(steps, more, Returned(allDelivered), delivered);
        AnswersAppend(steps, more);
        GroupsAttemptedPush(steps, more, groups, i, key);
        steps := steps + more;
        if delivered.Raised? {
          return delivered, steps;
        }
        RaisesTheSame(delivered, Returned(allDelivered && delivered.allDelivered), steps);
        allDelivered := allDelivered && delivered.allDelivered;
      }
      outcome := Returned(allDelivered);
      AllGroupsAttempted(steps, groups, key);
    }

    /** Delivers the message of one item's changes, if they are worth one. */
    method HandleGroup(group: seq<ChangeRow>, hasMessage: seq<ChangeRow> -> bool)
      returns (outcome: Outcome, ghost steps: seq<Step>)
      requires Valid() && group != []
      modifies this`records, this`devices, this`log
      ensures Valid()
      ensures Went(old(Snapshot()), old(devices), steps, Snapshot(), devices) && RaisesAsThrown(outcome, steps)
      ensures old(records) <= records && forall d :: d in devices ==> d in old(devices)
      ensures outcome == Returned(true) ==> Recorded(group, hasMessage, devices, favorites, records)
      ensures outcome.Returned? ==> GroupTried(steps, group, hasMessage, devices, favorites)
      ensures forall d :: d in records && d !in old(records) ==> Announces(d, group, hasMessage, favorites)
      ensures !hasMessage(group) ==> outcome == Returned(true) && steps == []
    {
      hide Went, RaisesAsThrown;
      var latest := group[|group| - 1];
      WentNowhere(Snapshot(), devices);
      NothingThrown();
      outcome, steps := Returned(true), [];
      if hasMessage(group) {
        ghost var known := devices;
        outcome, steps := Deliver(latest.itemId, ScheduleKey(latest.scheduleId));
        if outcome.Returned? {
          forall d | d in devices && Favorite(d.user, latest.itemId) in favorites
            ensures Tried(steps, d, ScheduleKey(latest.scheduleId))
          {
            AttemptTries(known, favorites, latest.itemId, steps, d, ScheduleKey(latest.scheduleId));
          }
        }
      }
    }

    /** Handles all groups in turn; the checkpoint moves to the latest change of every group until one
        has to be tried again. */
    method HandleGroups(changes: seq<ChangeRow>, hasMessage: seq<ChangeRow> -> bool, start: Option<int>)
      returns (outcome: Outcome, checkpoint: Option<int>, ghost steps: seq<Step>)
      requires Valid() && InOrder(changes)
      modifies this`records, this`devices, this`log
      ensures Valid()
      ensures Went(old(Snapshot()), old(devices), steps, Snapshot(), devices) && RaisesAsThrown(outcome, steps)
      ensures old(records) <= records && forall d :: d in devices ==> d in old(devices)
      ensures forall d :: d in records && d !in old(records) ==> AnnouncesOneOf(d, changes, hasMessage, favorites)
      ensures outcome.Returned? ==> ChangesTried(steps, changes, hasMessage, devices, favorites)
      ensures outcome == Returned(true) ==>
                && checkpoint == (if changes == [] then start else Some(CheckpointOf(changes)))
                && (changes != [] ==>
                      changes[0].observedAt <= CheckpointOf(changes) <= changes[|changes| - 1].observedAt)
                && forall r :: r in changes ==>
                     Recorded(Members(changes, ItemOf, r.itemId), hasMessage, devices, favorites, records)
    {
      hide Inv, Run, Next, Members, DistinctTokens, Recorded, Announces, KeyOrder, IsHistory, Went, RaisesAsThrown,
           GroupTried;
      checkpoint, steps := start, [];
      WentNowhere(Snapshot(), devices);
      NothingThrown();
      var blocked := false;
      var groups := GroupBy(changes, ItemOf);
      GroupsExist(changes, groups);
      for i := 0 to |groups|
        invariant Valid()
        invariant Went(old(Snapshot()), old(devices), steps, Snapshot(), devices)
        invariant RaisesAsThrown(Returned(!blocked), steps)
        invariant old(records) <= records && forall d :: d in devices ==> d in old(devices)
        invariant i == 0 ==> checkpoint == start
        invariant !blocked && i > 0 ==>
                    var group := groups[i - 1].1;
                    && checkpoint == Some(group[|group| - 1].observedAt)
                    && changes != [] && changes[0].observedAt <= checkpoint.value <= changes[|changes| - 1].observedAt
        invariant forall d :: d in records && d !in old(records) ==> AnnouncesOneOf(d, changes, hasMessage, favorites)
        invariant !blocked ==> forall j :: 0 <= j < i ==> Recorded(groups[j].1, hasMessage, devices, favorites, records)
        invariant forall j :: 0 <= j < i ==> GroupTried(steps, groups[j].1, hasMessage, devices, favorites)
      {
        var group := groups[i].1;
        var latest := group[|group| - 1];
        LatestInBatch(changes, groups[i].0);
        ghost var devicesBefore, recordsBefore, between := devices, records, Snapshot();
        var sending;
        ghost var more;
        sending, more := HandleGroup(group, hasMessage);
        WentOn(old(Snapshot()), old(devices), steps, between, devicesBefore, more, Snapshot(), devices);
        RaisesAfter(steps, more, Returned(!blocked), sending);
        ghost var stepsBefore := steps;
        steps := steps + more;
        if sending.Raised? {
          return sending, checkpoint, steps;
        }
        forall j | 0 <= j <= i
          ensures GroupTried(steps, groups[j].1, hasMessage, devices, favorites)
        {
          GroupTriedStays(stepsBefore, more, groups[j].1, hasMessage, devicesBefore, devices, favorites);
        }
        forall j | 0 <= j < i && Recorded(groups[j].1, hasMessage, devicesBefore, favorites, recordsBefore)
          ensures Recorded(groups[j].1, hasMessage, devices, favorites, records)
        {
          RecordedStays(groups[j].1, hasMessage, devicesBefore, devices, favorites, recordsBefore, records);
        }
        RaisesTheSame(sending, Returned(!blocked && sending.allDelivered), steps);
        if !sending.allDelivered {
          blocked := true;
        }
        if !blocked {
          checkpoint := Some(latest.observedAt);
        }
      }
      outcome := Returned(!blocked);
      forall r | r in changes
        ensures GroupTried(steps, Members(changes, ItemOf, r.itemId), hasMessage, devices, favorites)
      {
        assert HasGroup(groups, ItemOf(r));
      }
      if !blocked {
        forall r | r in changes
          ensures Recorded(Members(changes, ItemOf, r.itemId), hasMessage, devices, favorites, records)
        {
          assert HasGroup(groups, ItemOf(r));
        }
      }
    }

    /** Reads the new changes and moves the cursor when nothing has to be tried again. `hasMessage` says
        whether a group of changes of one item is worth a message. */
    method ProcessScheduleChanges(schedule: seq<ChangeRow>, watermark: int, hasMessage: seq<ChangeRow> -> bool)
      returns (outcome: Outcome, ghost steps: seq<Step>)
      requires Valid() && InOrder(schedule)
      modifies this`records, this`devices, this`log, this`cursor, this`windows
      ensures Valid()
      ensures Went(old(Snapshot()), old(devices), steps, Snapshot(), devices) && RaisesAsThrown(outcome, steps)
      ensures old(records) <= records && forall d :: d in devices ==> d in old(devices)
      ensures outcome != Returned(true) ==> cursor == old(cursor)
      ensures old(cursor).None? ==> cursor == Some(watermark) && steps == []
      ensures old(cursor).Some? && watermark <= old(cursor).value ==> cursor == old(cursor) && steps == []
      ensures old(cursor).Some? ==> cursor.Some? && old(cursor).value <= cursor.value
      ensures old(cursor).Some? && outcome == Returned(true) && old(cursor).value < watermark ==>
                HandledTo(cursor.value, old(cursor).value, watermark, schedule, hasMessage, devices, favorites, records)
      ensures forall d :: d in records && d !in old(records) ==>
                AnnouncesOneOf(d, BatchAfter(old(cursor), watermark, schedule, favorites), hasMessage, favorites)
      ensures outcome.Returned? && old(cursor).Some? && old(cursor).value < watermark ==>
                ChangesTried(steps, BatchAfter(old(cursor), watermark, schedule, favorites), hasMessage, devices,
                             favorites)
      ensures windows == old(windows) + [Window(old(cursor), cursor, watermark, schedule, favorites)]
    {
      hide Inv, Run, Next, Members, DistinctTokens, Recorded, WatchedIn, CutsInside, IsHistory, KeyOrder, CheckpointOf,
           InOrder, HandledTo, AnnouncesOneOf, IsWatched, Went, RaisesAsThrown, ChangesTried;
      steps := [];
      WentNowhere(Snapshot(), devices);
      NothingThrown();
      outcome := Returned(true);
      if cursor.None? {
        HistoryPush(windows, Window(cursor, Some(watermark), watermark, schedule, favorites));
        windows := windows + [Window(cursor, Some(watermark), watermark, schedule, favorites)];
        cursor := Some(watermark);
        return;
      }
      var since := cursor.value;
      HistoryPush(windows, Window(cursor, cursor, watermark, schedule, favorites));
      if watermark <= since {
        windows := windows + [Window(cursor, cursor, watermark, schedule, favorites)];
        return;
      }
      var watched := WatchedIn(schedule, favorites, since, watermark);
      BatchInOrder(schedule, favorites, since, watermark);
      var changes := Take(watched, CHANGE_BATCH_LIMIT);
      var checkpoint: Option<int> := if |changes| < CHANGE_BATCH_LIMIT then Some(watermark) else None;
      outcome, checkpoint, steps := HandleGroups(changes, hasMessage, checkpoint);
      if outcome.Raised? {
        windows := windows + [Window(cursor, cursor, watermark, schedule, favorites)];
        return;
      }
      var blocked := !outcome.allDelivered;
      if checkpoint.Some? && !blocked {
        HandledNow(since, watermark, schedule, hasMessage, devices, favorites, records);
        HistoryPush(windows, Window(cursor, checkpoint, watermark, schedule, favorites));
        windows := windows + [Window(cursor, checkpoint, watermark, schedule, favorites)];
        cursor := checkpoint;
      } else if !blocked && |changes| > 0 {
        // changes without a block have set the checkpoint, so the watermark is never written here
        assert false;
      } else {
        windows := windows + [Window(cursor, cursor, watermark, schedule, favorites)];
      }
    }

    /** Reminders are delivered one by one; one that could not be sent is left for a later run. */
    method ProcessReminders(candidates: seq<Reminder>) returns (outcome: Outcome, ghost steps: seq<Step>)
      requires Valid()
      modifies this`records, this`devices, this`log
      ensures Valid()
      ensures Went(old(Snapshot()), old(devices), steps, Snapshot(), devices) && RaisesAsThrown(outcome, steps)
      ensures old(records) <= records && forall d :: d in devices ==> d in old(devices)
      ensures forall d :: d in records && d !in old(records) ==> Reminds(d, candidates, favorites)
      ensures outcome.Raised? || outcome == Returned(true)
      ensures outcome.Returned? ==> AllTried(steps, candidates, devices, favorites)
    {
      hide Inv, Run, Next, DistinctTokens, IsHistory, Attempts, Tried, Members, DevicesFor, Tokens, Went,
           RaisesAsThrown;
      steps := [];
      WentNowhere(Snapshot(), devices);
      NothingThrown();
      for i := 0 to |candidates|
        invariant Valid()
        invariant Went(old(Snapshot()), old(devices), steps, Snapshot(), devices)
        invariant RaisesAsThrown(Returned(true), steps)
        invariant old(records) <= records && forall d :: d in devices ==> d in old(devices)
        invariant forall d :: d in records && d !in old(records) ==> Reminds(d, candidates, favorites)
        invariant AllTried(steps, candidates[..i], devices, favorites)
      {
        ghost var devicesBefore, stepsBefore, between := devices, steps, Snapshot();
        assert candidates[..i + 1] == candidates[..i] + [candidates[i]];
        if candidates[i].daysLeft != 3 && candidates[i].daysLeft != 1 {
          continue;
        }
        var key := ReminderKey(candidates[i].itemId, candidates[i].bidDate, candidates[i].daysLeft);
        var sending;
        ghost var more;
        sending, more := Deliver(candidates[i].itemId, key);
        WentOn(old(Snapshot()), old(devices), steps, between, devicesBefore, more, Snapshot(), devices);
        RaisesAfter(steps, more, Returned(true), sending);
        steps := steps + more;
        if sending.Raised? {
          return sending, steps;
        }
        RaisesTheSame(sending, Returned(true), steps);
        forall r, d | r in candidates[..i + 1] && IsDue(r) && d in devices && Favorite(d.user, r.itemId) in favorites
          ensures Tried(steps, d, KeyOfReminder(r))
        {
          if r in candidates[..i] {
            TriedAppend(stepsBefore, more, d, KeyOfReminder(r));
          } else {
            AttemptTries(devicesBefore, favorites, candidates[i].itemId, more, d, key);
            TriedAppend(stepsBefore, more, d, key);
          }
        }
      }
      outcome := Returned(true);
    }

    /** One scheduled run. It is a run of the delivery protocol, whatever happens in it; the cursor never
        moves back, and stays where it was when the push service turned out to be unavailable during
        the changes. */
    method RunOnce(isQuietHour: bool, schedule: seq<ChangeRow>, watermark: int,
                   hasMessage: seq<ChangeRow> -> bool, candidates: seq<Reminder>)
      returns (result: RunResult, ghost steps: seq<Step>)
      requires Valid() && InOrder(schedule)
      modifies this`records, this`devices, this`log, this`cursor, this`windows
      ensures Valid()
      ensures Went(old(Snapshot()), old(devices), steps, Snapshot(), devices)
      ensures isQuietHour <==> result.SkippedQuietHours?
      ensures result.AbortedUnavailable? <==> Throws(steps, true)
      ensures result.Rethrown? <==> Throws(steps, false)
      ensures isQuietHour ==> cursor == old(cursor) && steps == []
      ensures old(cursor).Some? ==> cursor.Some? && old(cursor).value <= cursor.value
      ensures old(cursor).Some? && cursor != old(cursor) ==>
                HandledTo(cursor.value, old(cursor).value, watermark, schedule, hasMessage, devices, favorites, records)
      ensures forall d :: d in records && d !in old(records) ==>
                AnnouncesOneOf(d, BatchAfter(old(cursor), watermark, schedule, favorites), hasMessage, favorites)
                || Reminds(d, candidates, favorites)
      ensures result.Completed? ==> AllTried(steps, candidates, devices, favorites)
      ensures result.Completed? && old(cursor).Some? && old(cursor).value < watermark ==>
                ChangesTried(steps, BatchAfter(old(cursor), watermark, schedule, favorites), hasMessage, devices,
                             favorites)
      ensures windows == if isQuietHour then old(windows)
                         else old(windows) + [Window(old(cursor), cursor, watermark, schedule, favorites)]
    {
      hide Inv, Run, Next, DistinctTokens, IsHistory, HandledTo, AnnouncesOneOf, Reminds, Tried, BatchAfter, Went,
           Throws, ChangesTried;
      steps := [];
      WentNowhere(Snapshot(), devices);
      NothingThrown();
      assert RaisesAsThrown(Returned(true), []);
      if isQuietHour {
        return SkippedQuietHours, steps;
      }
      var outcome;
      outcome, steps := ProcessScheduleChanges(schedule, watermark, hasMessage);
      if outcome.Returned? {
        ghost var more;
        ghost var devicesBefore, recordsBefore, between, changes := devices, records, Snapshot(), outcome;
        outcome, more := ProcessReminders(candidates);
        WentOn(old(Snapshot()), old(devices), steps, between, devicesBefore, more, Snapshot(), devices);
        RaisesAfter(steps, more, changes, outcome);
        if old(cursor).Some? && cursor != old(cursor) {
          HandledStays(cursor.value, old(cursor).value, watermark, schedule, hasMessage, devicesBefore, devices,
                       favorites, recordsBefore, records);
        }
        ChangesTriedStay(steps, more, BatchAfter(old(cursor), watermark, schedule, favorites), hasMessage,
                         devicesBefore, devices, favorites);
        if outcome.Returned? {
          forall r, d | r in candidates && IsDue(r) && d in devices && Favorite(d.user, r.itemId) in favorites
            ensures Tried(steps + more, d, KeyOfReminder(r))
          {
            TriedAppend(steps, more, d, KeyOfReminder(r));
          }
        }
        steps := steps + more;
      }
      assert RaisesAsThrown(outcome, steps);
      result := match outcome
        case Returned(_) => Completed
        case Raised(unavailable) => if unavailable then AbortedUnavailable else Rethrown;
    }
  }

  /** The cursor went from `since` to `cursor` with every change of the batch handled; a change up to it was passed
      over exactly when the limit cuts inside the rows that were to be read. */
  ghost predicate HandledTo(cursor: int, since: int, watermark: int, schedule: seq<ChangeRow>,
                            hasMessage: seq<ChangeRow> -> bool, devices: seq<DeviceRow>, favorites: set<Favorite>,
                            records: set<Delivery>) {
    var watched := WatchedIn(schedule, favorites, since, watermark);
    var batch := BatchAfter(Some(since), watermark, schedule, favorites);
    && since < cursor <= watermark && cursor == CursorAfter(watermark, batch)
    && (forall r :: r in batch ==> Recorded(Members(batch, ItemOf, r.itemId), hasMessage, devices, favorites, records))
    && ((forall r :: r in WatchedIn(schedule, favorites, since, cursor) ==> r in batch) <==> !CutsInside(watched))
  }

  lemma HandledNow(since: int, watermark: int, schedule: seq<ChangeRow>, hasMessage: seq<ChangeRow> -> bool,
                   devices: seq<DeviceRow>, favorites: set<Favorite>, records: set<Delivery>)
    requires InOrder(schedule) && since < watermark
    requires var batch := BatchAfter(Some(since), watermark, schedule, favorites);
             forall r :: r in batch ==>
               Recorded(Members(batch, ItemOf, r.itemId), hasMessage, devices, favorites, records)
    ensures var cursor := CursorAfter(watermark, BatchAfter(Some(since), watermark, schedule, favorites));
            && since < cursor
            && HandledTo(cursor, since, watermark, schedule, hasMessage, devices, favorites, records)
  {
    hide Recorded, WatchedIn, CutsInside, Members, CursorAfter, BatchAfter, InOrder;
    NothingPassedExactlyWhen(schedule, favorites, since, watermark);
  }

  lemma BatchInOrder(schedule: seq<ChangeRow>, favorites: set<Favorite>, since: int, watermark: int)
    requires InOrder(schedule)
    ensures InOrder(Take(WatchedIn(schedule, favorites, since, watermark), CHANGE_BATCH_LIMIT))
  {
    WatchedInOrder(schedule, favorites, since, watermark);
  }

  lemma HandledStays(cursor: int, since: int, watermark: int, schedule: seq<ChangeRow>,
                     hasMessage: seq<ChangeRow> -> bool, devices: seq<DeviceRow>, devices': seq<DeviceRow>,
                         favorites: set<Favorite>,
                     records: set<Delivery>, records': set<Delivery>)
    requires HandledTo(cursor, since, watermark, schedule, hasMessage, devices, favorites, records)
    requires records <= records' && forall d :: d in devices' ==> d in devices
    ensures HandledTo(cursor, since, watermark, schedule, hasMessage, devices', favorites, records')
  {
    hide Recorded, WatchedIn, CutsInside, Members, KeyOrder, CursorAfter, BatchAfter;
    var batch := BatchAfter(Some(since), watermark, schedule, favorites);
    forall r | r in batch
      ensures Recorded(Members(batch, ItemOf, r.itemId), hasMessage, devices', favorites, records')
    {
      RecordedStays(Members(batch, ItemOf, r.itemId), hasMessage, devices, devices', favorites, records, records');
    }
  }

  /** The record is for a subscriber of the item and for the latest of its changes, which are worth a message. */
  ghost predicate Announces(d: Delivery, group: seq<ChangeRow>, hasMessage: seq<ChangeRow> -> bool,
                            favorites: set<Favorite>) {
    && group != [] && hasMessage(group)
    && var latest := group[|group| - 1];
       d.key == ScheduleKey(latest.scheduleId) && Favorite(d.user, latest.itemId) in favorites
  }

  ghost predicate AnnouncesOneOf(d: Delivery, changes: seq<ChangeRow>, hasMessage: seq<ChangeRow> -> bool,
                                 favorites: set<Favorite>) {
    exists r :: r in changes && Announces(d, Members(changes, ItemOf, r.itemId), hasMessage, favorites)
  }

  /** The send for this device was at least tried: its user's notification was claimed with the device listed. */
  ghost predicate Tried(steps: seq<Step>, d: DeviceRow, key: Key) {
    exists i :: 0 <= i < |steps| && steps[i].Claim? && steps[i].user == d.user && steps[i].key == key
        && d.token in steps[i].devices
  }

  /** Reminders are sent three days and one day ahead. */
  predicate IsDue(r: Reminder) { r.daysLeft == 3 || r.daysLeft == 1 }

  function KeyOfReminder(r: Reminder): Key { ReminderKey(r.itemId, r.bidDate, r.daysLeft) }

  ghost predicate Reminds(d: Delivery, candidates: seq<Reminder>, favorites: set<Favorite>) {
    exists r :: r in candidates && IsDue(r) && d.key == KeyOfReminder(r) && Favorite(d.user, r.itemId) in favorites
  }

  /** Every due reminder was tried on every subscribed device that is still registered. */
  ghost predicate AllTried(steps: seq<Step>, candidates: seq<Reminder>, devices: seq<DeviceRow>,
                           favorites: set<Favorite>) {
    forall r, d :: r in candidates && IsDue(r) && d in devices && Favorite(d.user, r.itemId) in favorites ==>
      Tried(steps, d, KeyOfReminder(r))
  }

  /** The changes of one item, if worth a message, have left a record for every subscriber with a device. */
  ghost predicate Recorded(
    group: seq<ChangeRow>, hasMessage: seq<ChangeRow> -> bool, devices: seq<DeviceRow>, favorites: set<Favorite>,
    records: set<Delivery>)
  {
    group != [] && hasMessage(group) ==>
      var latest := group[|group| - 1];
      forall d :: d in devices && Favorite(d.user, latest.itemId) in favorites ==>
        Delivery(d.user, ScheduleKey(latest.scheduleId)) in records
  }

  /** The changes of one item, if worth a message, were tried on every subscribed device that is still registered. */
  ghost predicate GroupTried(steps: seq<Step>, group: seq<ChangeRow>, hasMessage: seq<ChangeRow> -> bool,
                             devices: seq<DeviceRow>, favorites: set<Favorite>) {
    group != [] && hasMessage(group) ==>
      var latest := group[|group| - 1];
      forall d :: d in devices && Favorite(d.user, latest.itemId) in favorites ==>
        Tried(steps, d, ScheduleKey(latest.scheduleId))
  }

  /** So were all items of the batch, also when some of them have to be tried again. */
  ghost predicate ChangesTried(steps: seq<Step>, changes: seq<ChangeRow>, hasMessage: seq<ChangeRow> -> bool,
                               devices: seq<DeviceRow>, favorites: set<Favorite>) {
    forall r :: r in changes ==>
      GroupTried(steps, Members(changes, ItemOf, r.itemId), hasMessage, devices, favorites)
  }

  lemma GroupTriedStays(first: seq<Step>, second: seq<Step>, group: seq<ChangeRow>, hasMessage: seq<ChangeRow> -> bool,
                        devices: seq<DeviceRow>, devices': seq<DeviceRow>, favorites: set<Favorite>)
    requires forall d :: d in devices' ==> d in devices
    ensures GroupTried(first, group, hasMessage, devices, favorites)
            || GroupTried(second, group, hasMessage, devices', favorites) ==>
              GroupTried(first + second, group, hasMessage, devices', favorites)
  {
    if group != [] && hasMessage(group)
       && (GroupTried(first, group, hasMessage, devices, favorites)
           || GroupTried(second, group, hasMessage, devices', favorites)) {
      var latest := group[|group| - 1];
      forall d | d in devices' && Favorite(d.user, latest.itemId) in favorites
        ensures Tried(first + second, d, ScheduleKey(latest.scheduleId))
      {
        TriedAppend(first, second, d, ScheduleKey(latest.scheduleId));
      }
    }
  }

  lemma ChangesTriedStay(first: seq<Step>, second: seq<Step>, changes: seq<ChangeRow>,
                         hasMessage: seq<ChangeRow> -> bool, devices: seq<DeviceRow>, devices': seq<DeviceRow>,
                         favorites: set<Favorite>)
    requires forall d :: d in devices' ==> d in devices
    ensures ChangesTried(first, changes, hasMessage, devices, favorites) ==>
              ChangesTried(first + second, changes, hasMessage, devices', favorites)
  {
    hide GroupTried, Members;
    if ChangesTried(first, changes, hasMessage, devices, favorites) {
      forall r | r in changes
        ensures GroupTried(first + second, Members(changes, ItemOf, r.itemId), hasMessage, devices', favorites)
      {
        GroupTriedStays(first, second, Members(changes, ItemOf, r.itemId), hasMessage, devices, devices', favorites);
      }
    }
  }

  lemma TriedAppend(first: seq<Step>, second: seq<Step>, d: DeviceRow, key: Key)
    requires Tried(first, d, key) || Tried(second, d, key)
    ensures Tried(first + second, d, key)
  {
    var both := first + second;
    if Tried(first, d, key) {
      var i :| 0 <= i < |first| && first[i].Claim? && first[i].user == d.user && first[i].key == key
          && d.token in first[i].devices;
      assert both[i] == first[i];
    } else {
      var i :| 0 <= i < |second| && second[i].Claim? && second[i].user == d.user && second[i].key == key
          && d.token in second[i].devices;
      assert both[|first| + i] == second[i];
    }
  }

  /** Claiming a user's notification for the devices of an item's subscribers tries each of them. */
  lemma AttemptTries(devices: seq<DeviceRow>, favorites: set<Favorite>, itemId: string, steps: seq<Step>,
                     d: DeviceRow, key: Key)
    requires DistinctTokens(devices) && d in devices && Favorite(d.user, itemId) in favorites
    requires Attempts(steps, d.user, key, Tokens(Members(DevicesFor(devices, favorites, itemId), UserOf, d.user)))
    ensures Tried(steps, d, key)
  {
    var subscribed := DevicesFor(devices, favorites, itemId);
    DevicesForSpec(devices, favorites, itemId);
    var own := Members(subscribed, UserOf, d.user);
    MembersSpec(subscribed, UserOf, d.user, d);
    TokensSpec(own);
    var k :| 0 <= k < |own| && own[k] == d;
    assert Tokens(own)[k] == d.token;
    var i :| 0 <= i < |steps| && steps[i] == Claim(0, d.user, key, Tokens(own));
  }

  lemma RecordedStays(
    group: seq<ChangeRow>, hasMessage: seq<ChangeRow> -> bool, devices: seq<DeviceRow>, devices': seq<DeviceRow>,
    favorites: set<Favorite>, records: set<Delivery>, records': set<Delivery>)
    requires Recorded(group, hasMessage, devices, favorites, records)
    requires records <= records' && forall d :: d in devices' ==> d in devices
    ensures Recorded(group, hasMessage, devices', favorites, records')
  {
  }

  lemma GroupsExist(changes: seq<ChangeRow>, groups: seq<(string, seq<ChangeRow>)>)
    requires IsGrouping(groups, changes, ItemOf)
    ensures changes != [] ==> groups != []
  {
    if changes != [] {
      assert HasGroup(groups, ItemOf(changes[0]));
    }
  }

  lemma RunNothing(s: State)
    ensures Run(s, []) == s
    ensures NoThrow([]) && NoFailure([]) && AreListings([])
  {
  }
}
