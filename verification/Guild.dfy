/** The guild cache: its save timer writes at most one changed guild per tick, going round in turn;
    and a guild turns experience into levels. */
module Guild {

  // ----- the save timer

  const GS_MASK: bv16 := 0x03FF
  const GS_REMOVE: bv16 := 0x8000

  /** A cached guild, as far as saving is concerned. */
  datatype Cached = Cached(id: int, saveFlag: bv16)

  /** Nothing left to write and due for removal. */
  predicate Leaves(g: Cached) { g.saveFlag == GS_REMOVE }

  predicate Dirty(g: Cached) { g.saveFlag & GS_MASK != 0 }

  function Saved(g: Cached): Cached { g.(saveFlag := g.saveFlag & !GS_MASK) }

  /** The cache in iteration order, and the guild saved last, or 0. */
  datatype Cache = Cache(guilds: seq<Cached>, lastId: int)

  predicate Proper(gs: seq<Cached>) {
    && (forall i | 0 <= i < |gs| :: gs[i].id > 0)
    && (forall i, j | 0 <= i < j < |gs| :: gs[i].id != gs[j].id)
  }

  /** Position of a guild, or past the end. */
  function PlaceOf(gs: seq<Cached>, id: int): (r: nat)
    ensures r <= |gs| && (r < |gs| ==> gs[r].id == id) && forall k | 0 <= k < r :: gs[k].id != id
  {
    if gs == [] || gs[0].id == id then 0 else 1 + PlaceOf(gs[1..], id)
  }

  /** The first changed guild from a position on, or past the end. */
  function FirstDirty(gs: seq<Cached>, from: nat): (r: nat)
    requires from <= |gs|
    ensures from <= r <= |gs| && (r < |gs| ==> Dirty(gs[r])) && forall k | from <= k < r :: !Dirty(gs[k])
    decreases |gs| - from
  {
    if from == |gs| || Dirty(gs[from]) then from else FirstDirty(gs, from + 1)
  }

  /** Where the search of this tick starts: behind the guild saved last; a guild that has gone is never found. */
  function SearchFrom(c: Cache): (r: nat)
    ensures r <= |c.guilds|
  {
    if c.lastId == 0 then 0
    else
      var p := PlaceOf(c.guilds, c.lastId);
      if p == |c.guilds| then p else p + 1
  }

  /** The guild this tick saves, or past the end. */
  function Turn(c: Cache): (r: nat)
    ensures r <= |c.guilds|
  {
    FirstDirty(c.guilds, SearchFrom(c))
  }

  function Removed(gs: seq<Cached>): seq<Cached> {
    if gs == [] then []
    else Removed(gs[..|gs| - 1]) + (if Leaves(gs[|gs| - 1]) then [] else [gs[|gs| - 1]])
  }

  /** The cache after the write, before anything is removed. */
  function Written(c: Cache): (r: seq<Cached>)
    ensures |r| == |c.guilds|
  {
    var t := Turn(c);
    if t == |c.guilds| then c.guilds else c.guilds[t := Saved(c.guilds[t])]
  }

  function Tick(c: Cache): Cache {
    Cache(Removed(Written(c)), if Turn(c) == |c.guilds| then 0 else c.guilds[Turn(c)].id)
  }

  // ----- a tick, on the bits

  lemma {:induction false} RemovedHas(gs: seq<Cached>, g: Cached)
    ensures g in Removed(gs) <==> g in gs && g.saveFlag != 0x8000
  {
    if gs != [] {
      var n := |gs| - 1;
      RemovedHas(gs[..n], g);
      assert gs == gs[..n] + [gs[n]];
    }
  }

  /** The guild of this tick is the first with unwritten changes behind the one saved last. */
  lemma TurnOnBits(c: Cache, t: nat)
    requires Proper(c.guilds) && t < |c.guilds|
    ensures Turn(c) == t <==>
            && c.guilds[t].saveFlag & 0x03FF != 0
            && (c.lastId == 0 || exists p | 0 <= p < t :: c.guilds[p].id == c.lastId)
            && forall k | 0 <= k < t && c.guilds[k].saveFlag & 0x03FF != 0 ::
                 c.lastId != 0 && exists p | k <= p < t :: c.guilds[p].id == c.lastId
  {
    hide PlaceOf, FirstDirty, SearchFrom;
    SearchStart(c);
    hide Proper;
    var from := SearchFrom(c);
    assert Dirty(c.guilds[t]) <==> c.guilds[t].saveFlag & 0x03FF != 0;
    hide Dirty;
    forall k | 0 <= k < |c.guilds| ensures Dirty(c.guilds[k]) <==> c.guilds[k].saveFlag & 0x03FF != 0 { DirtyBits(c.guilds[k]); }
  }

  lemma DirtyBits(g: Cached)
    ensures Dirty(g) <==> g.saveFlag & 0x03FF != 0
  {}

  /** The search begins behind the guild saved last, and at the end if that one has gone. */
  lemma SearchStart(c: Cache)
    requires Proper(c.guilds)
    ensures
      var from := SearchFrom(c);
      && (c.lastId == 0 ==> from == 0)
      && (c.lastId != 0 && from < |c.guilds| ==> from > 0 && c.guilds[from - 1].id == c.lastId)
      && forall p | 0 <= p < |c.guilds| && c.guilds[p].id == c.lastId && c.lastId != 0 :: from == p + 1
  {
    hide PlaceOf;
  }

  /** A guild's flags after a tick: the one written loses the ten bits of its changes. */
  function FlagsAfter(c: Cache, p: nat): bv16
    requires p < |c.guilds|
  {
    if p == Turn(c) then c.guilds[p].saveFlag & 0xFC00 else c.guilds[p].saveFlag
  }

  /** A guild leaves exactly when nothing but the mark for removal is left of its flags, so never with
      changes unwritten; every other guild stays, with these flags. */
  lemma TickOnBits(c: Cache, p: nat)
    requires Proper(c.guilds) && p < |c.guilds|
    ensures
      var flags := FlagsAfter(c, p);
      && (Cached(c.guilds[p].id, flags) in Tick(c).guilds <==> flags != 0x8000)
      && forall g | g in Tick(c).guilds && g.id == c.guilds[p].id :: g.saveFlag == flags
    ensures Cached(c.guilds[p].id, FlagsAfter(c, p)) !in Tick(c).guilds ==>
              p == Turn(c) || c.guilds[p].saveFlag & 0x03FF == 0
  {
    hide Turn, PlaceOf, Removed;
    var w := Written(c);
    assert w[p] == Cached(c.guilds[p].id, FlagsAfter(c, p));
    WrittenIds(c);
    RemovedHas(w, w[p]);
    forall g | g in Tick(c).guilds && g.id == c.guilds[p].id ensures g == w[p] {
      RemovedHas(w, g);
      var q :| 0 <= q < |w| && w[q] == g;
      assert q == p;
    }
  }

  lemma WrittenIds(c: Cache)
    ensures forall q | 0 <= q < |c.guilds| :: Written(c)[q].id == c.guilds[q].id
  {
    hide Turn;
  }

  // ----- fairness

  /** Between two ticks guilds change, but none leaves, joins, or comes due for removal. */
  predicate OnlyChanges(c: Cache, d: Cache) {
    && c.lastId == d.lastId && |c.guilds| == |d.guilds|
    && forall i | 0 <= i < |c.guilds| :: c.guilds[i].id == d.guilds[i].id && (Dirty(c.guilds[i]) ==> Dirty(d.guilds[i]))
  }

  predicate Lasting(c: Cache) {
    Proper(c.guilds) && |Tick(c).guilds| == |c.guilds|
  }

  /** A run: the cache before each tick. */
  predicate IsRun(run: seq<Cache>) {
    && (forall i | 0 <= i < |run| :: Lasting(run[i]))
    && (forall i | 0 < i < |run| :: OnlyChanges(Tick(run[i - 1]), run[i]))
  }

  /** How many ticks may pass before the turn of the guild at `p`; one of them may only begin a new round. */
  function Wait(c: Cache, p: nat): (w: nat)
    requires p < |c.guilds|
    ensures 0 < w <= |c.guilds| + 1
  {
    if SearchFrom(c) <= p then 1 + p - SearchFrom(c) else |c.guilds| - SearchFrom(c) + 1 + (p + 1)
  }

  /** Removal shortens the cache unless nothing is due. */
  lemma {:induction false} RemovedSame(gs: seq<Cached>)
    ensures |Removed(gs)| <= |gs| && (|Removed(gs)| == |gs| ==> Removed(gs) == gs)
  {
    if gs != [] { RemovedSame(gs[..|gs| - 1]); }
  }

  lemma PlaceIs(gs: seq<Cached>, ids: seq<Cached>, p: nat)
    requires Proper(gs) && p < |gs| == |ids| && forall k | 0 <= k < |gs| :: ids[k].id == gs[k].id
    ensures PlaceOf(ids, gs[p].id) == p
  {
    hide PlaceOf;
    var q := PlaceOf(ids, gs[p].id);
    assert ids[p].id == gs[p].id;
  }

  /** A tick that passes a changed guild over brings its turn nearer. */
  lemma TickBringsNearer(c: Cache, d: Cache, p: nat)
    requires Lasting(c) && p < |c.guilds| && Dirty(c.guilds[p]) && Turn(c) != p && OnlyChanges(Tick(c), d)
    ensures p < |d.guilds| && Dirty(d.guilds[p]) && Wait(d, p) < Wait(c, p)
  {
    RemovedSame(Written(c));
    SavedId(c.guilds[p]);
    hide PlaceOf, FirstDirty, Removed, Dirty, Saved, Turn;
    if Turn(c) < |c.guilds| {
      SavedId(c.guilds[Turn(c)]);
      PlaceIs(c.guilds, d.guilds, Turn(c));
    }
    TurnBetween(c, p);
  }

  lemma TurnBetween(c: Cache, p: nat)
    requires p < |c.guilds| && Dirty(c.guilds[p])
    ensures SearchFrom(c) <= Turn(c) && (SearchFrom(c) <= p ==> Turn(c) <= p)
  {
    hide SearchFrom, Dirty;
  }

  /** Whatever else changes, a changed guild is written within one tick per guild and one more. */
  lemma {:induction false} SaveIsFair(run: seq<Cache>, p: nat)
    requires IsRun(run) && run != [] && p < |run[0].guilds| && Dirty(run[0].guilds[p])
    requires |run| >= Wait(run[0], p)
    ensures exists i | 0 <= i < |run| :: i < Wait(run[0], p) <= |run[0].guilds| + 1 && Turn(run[i]) == p
  {
    hide Turn, Wait, Dirty, IsRun, Tick, Written, SearchFrom;
    if Turn(run[0]) != p {
      RunTail(run);
      TurnNeedsMore(run[0], p);
      TickBringsNearer(run[0], run[1], p);
      hide Lasting, OnlyChanges;
      var rest := run[1..];
      SaveIsFair(rest, p);
      var i :| 0 <= i < |rest| && i < Wait(rest[0], p) && Turn(rest[i]) == p;
      assert run[i + 1] == rest[i];
    }
  }

  lemma RunTail(run: seq<Cache>)
    requires IsRun(run) && run != []
    ensures Lasting(run[0])
    ensures |run| > 1 ==> OnlyChanges(Tick(run[0]), run[1]) && IsRun(run[1..]) && run[1..][0] == run[1]
    ensures |run| > 1 ==> |run[1].guilds| == |run[0].guilds|
  {
    hide Lasting, Tick;
    assert Lasting(run[0]);
    if |run| > 1 {
      var rest := run[1..];
      assert forall i | 0 <= i < |rest| :: rest[i] == run[i + 1];
      SameSize(run[0], run[1]);
    }
  }

  lemma SameSize(c: Cache, d: Cache)
    requires Lasting(c) && OnlyChanges(Tick(c), d)
    ensures |d.guilds| == |c.guilds|
  {
    hide Tick;
  }

  lemma TurnNeedsMore(c: Cache, p: nat)
    requires p < |c.guilds| && Dirty(c.guilds[p]) && Turn(c) != p
    ensures Wait(c, p) > 1
  {}

  /** The timer's state on reaching position `i`: 0 behind which guild to search, 1 searching, 2 saved. */
  function StateAt(c: Cache, i: nat): int {
    if c.lastId != 0 && i <= PlaceOf(c.guilds, c.lastId) then 0 else if i <= Turn(c) then 1 else 2
  }

  lemma StateMoves(c: Cache, i: nat)
    requires Proper(c.guilds) && i <= |c.guilds|
    ensures i == |c.guilds| ==> (StateAt(c, i) == 2 <==> Turn(c) < i)
    ensures i < |c.guilds| ==>
              var g := c.guilds[i];
              StateAt(c, i + 1) ==
              if StateAt(c, i) == 0 && g.id == c.lastId then 1
              else if StateAt(c, i) == 1 && Dirty(g) then 2
              else StateAt(c, i)
    ensures i < |c.guilds| ==> (StateAt(c, i) == 1 && Dirty(c.guilds[i]) <==> i == Turn(c))
  {
    hide PlaceOf, FirstDirty, Dirty;
  }

  lemma SavedId(g: Cached)
    ensures Saved(g).id == g.id
  {}

  lemma RemovedSnoc(gs: seq<Cached>, g: Cached)
    ensures Removed(gs + [g]) == Removed(gs) + (if Leaves(g) then [] else [g])
  {
    assert (gs + [g])[..|gs|] == gs;
  }

  /** A guild written, and which of its parts. */
  datatype Write = Write(id: int, parts: bv16)

  function WriteOf(g: Cached): Write { Write(g.id, g.saveFlag & GS_MASK) }

  /** The timer's own state and loop. */
  class GuildCache {
    var guilds: seq<Cached>
    var lastId: int
    /** What was written, in order. */
    var written: seq<Write>

    /** One guild of the iteration. */
    method Visit(i: nat, state: int, ghost before: Cache) returns (next: int, g: Cached)
      requires Proper(guilds) && i < |guilds| && guilds == before.guilds && state == StateAt(before, i)
      requires state == 0 ==> lastId == before.lastId
      modifies this`lastId, this`written
      ensures next == StateAt(before, i + 1)
      ensures g == if i == Turn(before) then Saved(guilds[i]) else guilds[i]
      ensures lastId == if i == Turn(before) then guilds[i].id else old(lastId)
      ensures written == old(written) + (if i == Turn(before) then [WriteOf(guilds[i])] else [])
    {
      hide PlaceOf, FirstDirty, Dirty, Turn, Proper, WriteOf;
      StateMoves(before, i);
      g, next := guilds[i], state;
      if state == 0 && g.id == lastId {
        next := 1;
      } else if state == 1 && Dirty(g) {
        written := written + [WriteOf(g)];
        g := Saved(g);
        lastId := g.id;
        next := 2;
      }
    }

    /** The loop over the cache. */
    method VisitAll(first: int) returns (state: int, kept: seq<Cached>)
      requires Proper(guilds) && first == (if lastId == 0 then 1 else 0)
      modifies this`lastId, this`written
      ensures
        var t := Turn(old(Cache(guilds, lastId)));
        && (state == 2 <==> t < |guilds|)
        && kept == Removed(Written(old(Cache(guilds, lastId))))
        && (t < |guilds| ==> lastId == guilds[t].id)
        && written == old(written) + (if t < |guilds| then [WriteOf(guilds[t])] else [])
    {
      ghost var before := Cache(guilds, lastId);
      ghost var t := Turn(before);
      assert first == StateAt(before, 0);
      StateMoves(before, |guilds|);
      hide PlaceOf, FirstDirty, Dirty, Saved, Turn, Removed, StateAt, Proper, Written, Leaves, KeptUpTo, WriteOf;
      var i := 0;
      state, kept := first, [];
      KeptAll(before);
      while i < |guilds|
        invariant i <= |guilds| && kept == KeptUpTo(before, i)
        invariant state == StateAt(before, i) && (i <= t ==> lastId == before.lastId)
        invariant t < i ==> lastId == guilds[t].id
        invariant written == old(written) + (if t < i then [WriteOf(guilds[t])] else [])
      {
        var g;
        LateState(before, i);
        state, g := Visit(i, state, before);
        KeptMore(before, i, g);
        if !Leaves(g) { kept := kept + [g]; }
        i := i + 1;
      }
    }

    /** `guild_save_timer`. */
    method SaveTimer()
      requires Proper(guilds)
      modifies this
      ensures Cache(guilds, lastId) == Tick(old(Cache(guilds, lastId)))
      ensures
        var t := Turn(old(Cache(guilds, lastId)));
        written == old(written) + (if t < |old(guilds)| then [Write(old(guilds)[t].id, old(guilds)[t].saveFlag & 0x03FF)] else [])
    {
      hide PlaceOf, FirstDirty, Dirty, Saved, Turn, Removed, Proper, Written;
      var state, kept := VisitAll(if lastId == 0 then 1 else 0);
      if state != 2 { lastId := 0; }
      guilds := kept;
    }
  }

  /** What remains of the first `i` guilds. */
  function KeptUpTo(c: Cache, i: nat): seq<Cached>
    requires i <= |c.guilds|
  {
    Removed(Written(c)[..i])
  }

  lemma KeptMore(c: Cache, i: nat, g: Cached)
    requires i < |c.guilds| && g == if i == Turn(c) then Saved(c.guilds[i]) else c.guilds[i]
    ensures KeptUpTo(c, i + 1) == KeptUpTo(c, i) + (if Leaves(g) then [] else [g])
  {
    hide Turn, Saved, Removed, Leaves;
    assert Written(c)[..i + 1] == Written(c)[..i] + [g];
    RemovedSnoc(Written(c)[..i], g);
  }

  lemma KeptAll(c: Cache)
    ensures KeptUpTo(c, 0) == [] && KeptUpTo(c, |c.guilds|) == Removed(Written(c))
  {
    assert Written(c)[..|c.guilds|] == Written(c);
  }

  lemma LateState(c: Cache, i: nat)
    ensures StateAt(c, i) == 0 ==> i <= Turn(c)
  {}

  // ----- experience and levels

  const MAX_GUILD := 16 + 10 * 6
  const GS_LEVEL: bv16 := 0x0100

  /** `guild_nextexp`: the threshold to leave a level. */
  function NextExp(table: seq<nat>, level: int): nat
    requires |table| == 100
  {
    if level == 0 then 1 else if 0 < level < 100 then table[level - 1] else 0
  }

  /** All thresholds from one level up to another. */
  function Thresholds(table: seq<nat>, start: int, last: int): nat
    requires |table| == 100
    decreases last - start
  {
    if last <= start then 0 else Thresholds(table, start, last - 1) + NextExp(table, last - 1)
  }

  /** Every level below `last` has a threshold and could be afforded. */
  predicate Passed(table: seq<nat>, start: int, exp: nat, last: int)
    requires |table| == 100
  {
    forall l | start <= l < last :: Affordable(table, start, exp, l)
  }

  predicate Affordable(table: seq<nat>, start: int, exp: nat, level: int)
    requires |table| == 100
  {
    0 < NextExp(table, level) && Thresholds(table, start, level + 1) <= exp
  }

  lemma PassOne(table: seq<nat>, start: int, exp: nat, last: int)
    requires |table| == 100 && Passed(table, start, exp, last)
    requires Affordable(table, start, exp, last)
    ensures Passed(table, start, exp, last + 1)
  {
    hide NextExp, Thresholds;
  }

  /** `last` is where experience `exp` leads from level `start`: every level passed was paid for, and the
      next one is not affordable or not offered. */
  predicate Reaches(table: seq<nat>, start: int, exp: nat, last: int)
    requires |table| == 100
  {
    && start <= last && Passed(table, start, exp, last) && Thresholds(table, start, last) <= exp
    && (NextExp(table, last) == 0 || exp < Thresholds(table, start, last + 1))
  }

  lemma NotBeyond(table: seq<nat>, start: int, exp: nat, a: int, b: int)
    requires |table| == 100 && Reaches(table, start, exp, a) && a < b
    ensures !Reaches(table, start, exp, b)
  {
    hide NextExp, Thresholds;
    assert !Affordable(table, start, exp, a);
  }

  /** The level reached is determined by the level left and the experience. */
  lemma ReachesOne(table: seq<nat>, start: int, exp: nat, a: int, b: int)
    requires |table| == 100 && Reaches(table, start, exp, a) && Reaches(table, start, exp, b)
    ensures a == b
  {
    hide Reaches;
    if a < b { NotBeyond(table, start, exp, a, b); } else if b < a { NotBeyond(table, start, exp, b, a); }
  }

  lemma ThresholdsStep(table: seq<nat>, start: int, last: int)
    requires |table| == 100 && start <= last
    ensures Thresholds(table, start, last + 1) == Thresholds(table, start, last) + NextExp(table, last)
    ensures Thresholds(table, start, start) == 0
  {}

  /** The sum of a stretch of the table. */
  function Sum(xs: seq<nat>): nat {
    if xs == [] then 0 else Sum(xs[..|xs| - 1]) + xs[|xs| - 1]
  }

  /** Level `l` is left at the cost of entry `l - 1` of the table. */
  lemma {:induction false} ThresholdsAreSlice(table: seq<nat>, start: int, last: int)
    requires |table| == 100 && 1 <= start <= last <= 100
    ensures Thresholds(table, start, last) == Sum(table[start - 1..last - 1])
    decreases last
  {
    var slice := table[start - 1..last - 1];
    if start < last {
      ThresholdsAreSlice(table, start, last - 1);
      assert slice[..|slice| - 1] == table[start - 1..last - 2];
    }
  }

  lemma NextEntry(table: seq<nat>, level: int)
    requires |table| == 100 && level >= 1
    ensures NextExp(table, level) == if level < 100 then table[level - 1] else 0
  {}

  lemma OfferedLevels(table: seq<nat>, start: int, exp: nat, last: int)
    requires |table| == 100 && Passed(table, start, exp, last) && 1 <= start <= last
    ensures last <= 100 || last == start
    ensures last <= 100 ==> forall k | start - 1 <= k < last - 1 :: table[k] > 0
  {
    hide Thresholds;
    if last > start { assert Affordable(table, start, exp, last - 1); }
    forall k | start - 1 <= k < last - 1 && k < 100 ensures table[k] > 0 { assert Affordable(table, start, exp, k + 1); }
  }

  datatype Member = Member(account: int, lv: int, online: bool)

  function LevelSum(ms: seq<Member>): int {
    if ms == [] then 0
    else LevelSum(ms[..|ms| - 1]) + (if Counts(ms[|ms| - 1]) then ms[|ms| - 1].lv else 0)
  }

  predicate Counts(m: Member) { m.account > 0 && m.lv >= 0 }

  function HowMany(ms: seq<Member>, p: Member -> bool): nat {
    if ms == [] then 0 else HowMany(ms[..|ms| - 1], p) + (if p(ms[|ms| - 1]) then 1 else 0)
  }

  lemma {:induction false} HowManyCounts(ms: seq<Member>, p: Member -> bool)
    ensures HowMany(ms, p) == |set i: nat | i < |ms| && p(ms[i])|
  {
    var all := set i: nat | i < |ms| && p(ms[i]);
    if ms == [] {
      assert all == {};
    } else {
      var n := |ms| - 1;
      HowManyCounts(ms[..n], p);
      var older := set i: nat | i < |ms[..n]| && p(ms[..n][i]);
      assert all == if p(ms[n]) then older + {n} else older;
    }
  }

  lemma NobodyCounts()
    ensures HowMany([], IsCounted()) == 0 && HowMany([], IsConnected()) == 0 && Short(LevelSum([])) == 0
  {}

  lemma ShortNone()
    ensures Short(0) == 0
  {}

  lemma OneMoreCounts(ms: seq<Member>, m: Member)
    ensures HowMany(ms + [m], IsCounted()) == HowMany(ms, IsCounted()) + (if m.account > 0 && m.lv >= 0 then 1 else 0)
    ensures HowMany(ms + [m], IsConnected()) == HowMany(ms, IsConnected()) + (if m.account > 0 && m.online then 1 else 0)
    ensures LevelSum(ms + [m]) == LevelSum(ms) + (if m.account > 0 && m.lv >= 0 then m.lv else 0)
  {
    assert (ms + [m])[..|ms|] == ms;
  }

  /** Sums may be cut to 16 bits on the way. */
  lemma ShortSum(n: int, m: int)
    ensures Short(Short(n) + m) == Short(n + m)
  {}

  function Connected(ms: seq<Member>): set<nat> { set i: nat | i < |ms| && ms[i].account > 0 && ms[i].online }

  lemma ConnectedCount(ms: seq<Member>)
    ensures HowMany(ms, IsConnected()) == |Connected(ms)|
  {
    HowManyCounts(ms, IsConnected());
    assert Connected(ms) == set i: nat | i < |ms| && IsConnected()(ms[i]);
  }

  lemma {:induction false} NoLevels(ms: seq<Member>)
    ensures HowMany(ms, IsCounted()) == 0 ==> LevelSum(ms) == 0
  {
    if ms != [] { NoLevels(ms[..|ms| - 1]); }
  }

  function IsCounted(): Member -> bool { (m: Member) => Counts(m) }
  function IsConnected(): Member -> bool { (m: Member) => m.account > 0 && m.online }

  /** Conversion to a signed 16-bit field, and division toward zero. */
  function Short(n: int): int { if n % 0x1_0000 < 0x8000 then n % 0x1_0000 else n % 0x1_0000 - 0x1_0000 }

  function Quotient(n: int, d: int): int
    requires d > 0
  {
    if n >= 0 then n / d else -(-n / d)
  }

  /** What is left over is less than the divisor and has the sign of the dividend. */
  lemma QuotientTruncates(n: int, d: int)
    requires d > 0
    ensures
      var left := n - Quotient(n, d) * d;
      if n >= 0 then 0 <= left < d else -d < left <= 0
  {
    if n < 0 { assert -n == -n / d * d + -n % d; }
  }

  /** Conversion to 16 bits changes a number by a multiple of 2^16. */
  lemma ShortWraps(n: int)
    ensures -0x8000 <= Short(n) < 0x8000 && (n - Short(n)) % 0x1_0000 == 0
  {}

  class Guild {
    const member: array<Member>
    var lv: int
    var exp: nat
    var nextExp: nat
    var skillPoint: int
    var extension: nat
    var maxMember: int
    var averageLv: int
    var connectMember: int
    var saveFlag: bv16

    /** Consuming experience: `mapif` is told and the guild marked for saving when anything shown changed. */
    method CalcInfo(table: seq<nat>) returns (changed: bool)
      requires |table| == 100 && member.Length == MAX_GUILD
      modifies this
      ensures extension == old(extension)
      ensures
        var from := if old(lv) <= 0 then 1 else old(lv);
        && Reaches(table, from, old(exp), lv) && nextExp == NextExp(table, lv)
        && exp + Thresholds(table, from, lv) == old(exp) && (nextExp == 0 || exp < nextExp)
        && skillPoint - old(skillPoint) == lv - from
      ensures maxMember == if extension > 10 then MAX_GUILD else 16 + extension * 6
      ensures connectMember == HowMany(member[..maxMember], IsConnected())
      ensures
        var c := HowMany(member[..maxMember], IsCounted());
        averageLv == if c == 0 then 0 else Quotient(Short(LevelSum(member[..maxMember])), c)
      ensures changed <==> maxMember != old(maxMember) || lv != old(lv) || skillPoint != old(skillPoint)
      ensures saveFlag == if changed then old(saveFlag) | GS_LEVEL else old(saveFlag)
    {
      var before := (maxMember, lv, skillPoint);
      LevelUp(table);
      maxMember := 16 + extension * 6;
      if maxMember > MAX_GUILD { maxMember := MAX_GUILD; }
      Average();
      changed := maxMember != before.0 || lv != before.1 || skillPoint != before.2;
      if changed { saveFlag := saveFlag | GS_LEVEL; }
    }

    method LevelUp(table: seq<nat>)
      requires |table| == 100
      modifies this`lv, this`exp, this`nextExp, this`skillPoint
      ensures
        var from := if old(lv) <= 0 then 1 else old(lv);
        && Reaches(table, from, old(exp), lv) && nextExp == NextExp(table, lv)
        && exp + Thresholds(table, from, lv) == old(exp) && (nextExp == 0 || exp < nextExp)
        && skillPoint - old(skillPoint) == lv - from
      ensures
        var from := if old(lv) <= 0 then 1 else old(lv);
        if from > 100 then lv == from && exp == old(exp) && nextExp == 0
        else
          && from <= lv <= 100 && exp + Sum(table[from - 1..lv - 1]) == old(exp)
          && (forall k | from - 1 <= k < lv - 1 :: table[k] > 0)
          && nextExp == (if lv == 100 then 0 else table[lv - 1])
          && (lv == 100 || table[lv - 1] == 0 || exp < table[lv - 1])
    {
      if lv <= 0 { lv := 1; }
      hide Thresholds, NextExp;
      ghost var from := lv;
      assert Passed(table, from, exp, from);
      hide Passed;
      ThresholdsStep(table, from, from);
      var next := NextExp(table, lv);
      while exp >= next && next > 0
        invariant from <= lv && next == NextExp(table, lv) && skillPoint - old(skillPoint) == lv - from
        invariant exp + Thresholds(table, from, lv) == old(exp)
        invariant Passed(table, from, old(exp), lv)
        decreases exp
      {
        ThresholdsStep(table, from, lv);
        PassOne(table, from, old(exp), lv);
        exp := exp - next;
        lv := lv + 1;
        skillPoint := skillPoint + 1;
        next := NextExp(table, lv);
      }
      ThresholdsStep(table, from, lv);
      nextExp := next;
      OfferedLevels(table, from, old(exp), lv);
      if lv <= 100 { ThresholdsAreSlice(table, from, lv); }
      NextEntry(table, lv);
    }

    method Average()
      requires 0 <= maxMember <= member.Length
      modifies this`averageLv, this`connectMember
      ensures connectMember == HowMany(member[..maxMember], IsConnected())
      ensures connectMember == |Connected(member[..maxMember])|
      ensures
        var c := HowMany(member[..maxMember], IsCounted());
        averageLv == if c == 0 then 0 else Quotient(Short(LevelSum(member[..maxMember])), c)
    {
      averageLv, connectMember := 0, 0;
      var i, c := 0, 0;
      NobodyCounts();
      ghost var ms := member[..];
      hide HowMany, LevelSum, Short, Quotient, Connected;
      while i < maxMember
        invariant i <= maxMember && averageLv == Short(LevelSum(ms[..i]))
        invariant c == HowMany(ms[..i], IsCounted()) && connectMember == HowMany(ms[..i], IsConnected())
      {
        OneMoreCounts(ms[..i], ms[i]);
        assert ms[..i + 1] == ms[..i] + [ms[i]];
        if member[i].account > 0 {
          if member[i].lv >= 0 {
            ShortSum(LevelSum(ms[..i]), member[i].lv);
            averageLv := Short(averageLv + member[i].lv);
            c := c + 1;
          }
          if member[i].online { connectMember := connectMember + 1; }
        }
        i := i + 1;
      }
      NoLevels(ms[..i]);
      ConnectedCount(ms[..i]);
      ShortNone();
      if c != 0 { averageLv := Quotient(averageLv, c); }
    }
  }
}
