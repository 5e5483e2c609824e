/** The fame ranking: a bounded array kept in descending order as reports come in, holding the players
    with the highest scores. */
module FameRanking {

  /** A place in the ranking; a vacant one has id 0 and fame 0. */
  datatype Entry = Entry(id: int, fame: int)

  const VACANT := Entry(0, 0)

  type Ranking = seq<Entry>
  type Scores = map<int, int>

  predicate Sorted(list: Ranking) {
    forall i, j | 0 <= i < j < |list| :: list[i].fame >= list[j].fame
  }

  /** Distinct players, none behind a vacant place, and nobody below zero. */
  predicate Proper(list: Ranking) {
    && (forall i, j | 0 <= i < j < |list| && list[i].id != 0 :: list[i].id != list[j].id)
    && (forall i, j | 0 <= i < j < |list| && list[i].id == 0 :: list[j].id == 0)
    && (forall i | 0 <= i < |list| :: list[i].fame >= 0 && (list[i].id == 0 ==> list[i] == VACANT))
  }

  predicate Listed(list: Ranking, id: int) {
    exists i | 0 <= i < |list| :: list[i].id == id
  }

  /** The ranking shows latest scores, and no unlisted player beats any place in it. */
  ghost predicate TopOf(list: Ranking, scores: Scores) {
    && 0 !in scores
    && (forall i | 0 <= i < |list| && list[i].id != 0 :: list[i].id in scores && scores[list[i].id] == list[i].fame)
    && (forall id, i | id in scores && !Listed(list, id) && 0 <= i < |list| :: scores[id] <= list[i].fame)
  }

  ghost predicate Ranks(list: Ranking, scores: Scores) {
    Sorted(list) && Proper(list) && TopOf(list, scores)
  }

  // ----- one report

  /** The first place held by `id`, and the first place whose fame is at most `fame`; past the end if none. */
  function PlaceOf(list: Ranking, id: int): (r: nat)
    ensures r <= |list| && (r < |list| ==> list[r].id == id) && forall k | 0 <= k < r :: list[k].id != id
  {
    if list == [] || list[0].id == id then 0 else 1 + PlaceOf(list[1..], id)
  }

  function PlaceFor(list: Ranking, fame: int): (r: nat)
    ensures r <= |list| && (r < |list| ==> list[r].fame <= fame) && forall k | 0 <= k < r :: list[k].fame > fame
  {
    if list == [] || list[0].fame <= fame then 0 else 1 + PlaceFor(list[1..], fame)
  }

  /** The entry at `from` taken out and put back at place `to`. */
  function Moved(list: Ranking, from: nat, to: nat): (r: Ranking)
    requires from < |list| && to < |list|
    ensures |r| == |list|
  {
    var others := list[..from] + list[from + 1..];
    others[..to] + [list[from]] + others[to..]
  }

  /** Where the entry that is moved comes from and goes to; a new player takes over the last place. */
  function From(list: Ranking, id: int): nat
    requires list != []
  {
    if PlaceOf(list, id) == |list| then |list| - 1 else PlaceOf(list, id)
  }

  function To(list: Ranking, fame: int): nat
    requires list != []
  {
    if PlaceFor(list, fame) == |list| then |list| - 1 else PlaceFor(list, fame)
  }

  function Reported(list: Ranking, id: int, fame: int): (r: Ranking)
    ensures |r| == |list|
  {
    var p, f := PlaceOf(list, id), PlaceFor(list, fame);
    if p == |list| && f == |list| then list
    else if p == f then list[p := list[p].(fame := fame)]
    else Moved(list, From(list, id), To(list, fame))[To(list, fame) := Entry(id, fame)]
  }

  lemma MovedAt(list: Ranking, from: nat, to: nat, k: nat)
    requires from < |list| && to < |list| && k < |list|
    ensures Moved(list, from, to)[k] ==
            if k == to then list[from]
            else if from <= k < to then list[k + 1]
            else if to < k <= from then list[k - 1]
            else list[k]
  {}

  /** Nothing happens, or everything between the two places moves over by one. */
  lemma ReportedAt(list: Ranking, id: int, fame: int, k: nat)
    requires k < |list|
    ensures
      var p, f, from, to := PlaceOf(list, id), PlaceFor(list, fame), From(list, id), To(list, fame);
      Reported(list, id, fame)[k] ==
      if p == |list| && f == |list| then list[k]
      else if k == to then Entry(id, fame)
      else if from <= k < to then list[k + 1]
      else if to < k <= from then list[k - 1]
      else list[k]
  {
    hide Moved, PlaceOf, PlaceFor;
    var from, to := From(list, id), To(list, fame);
    MovedAt(list, from, to, k);
  }

  /** One report in full, where `p` is the first place of the player and `q` the first place not above the
      new fame, past the end if there is none: the player goes in front of everybody with equal fame or
      less, whoever was last makes room for a new player, and the others keep their order. */
  lemma ReportMeans(list: Ranking, id: int, fame: int, p: nat, q: nat)
    requires p <= |list| && (p < |list| ==> list[p].id == id) && forall k | 0 <= k < p :: list[k].id != id
    requires q <= |list| && (q < |list| ==> list[q].fame <= fame) && forall k | 0 <= k < q :: list[k].fame > fame
    ensures
      var n, e := |list|, Entry(id, fame);
      Reported(list, id, fame) ==
      if p == n && q == n then list
      else if p == n then list[..q] + [e] + list[q..n - 1]
      else if q == n then list[..p] + list[p + 1..] + [e]
      else if q <= p then list[..q] + [e] + list[q..p] + list[p + 1..]
      else list[..p] + list[p + 1..q + 1] + [e] + list[q + 1..]
  {
    hide Reported;
    var n, e := |list|, Entry(id, fame);
    var r :=
      if p == n && q == n then list
      else if p == n then list[..q] + [e] + list[q..n - 1]
      else if q == n then list[..p] + list[p + 1..] + [e]
      else if q <= p then list[..q] + [e] + list[q..p] + list[p + 1..]
      else list[..p] + list[p + 1..q + 1] + [e] + list[q + 1..];
    assert |r| == n;
    forall k | 0 <= k < n ensures Reported(list, id, fame)[k] == r[k] { ReportedIs(list, id, fame, p, q, k); }
  }

  lemma ReportedIs(list: Ranking, id: int, fame: int, p: nat, q: nat, k: nat)
    requires k < |list|
    requires p <= |list| && (p < |list| ==> list[p].id == id) && forall k | 0 <= k < p :: list[k].id != id
    requires q <= |list| && (q < |list| ==> list[q].fame <= fame) && forall k | 0 <= k < q :: list[k].fame > fame
    ensures
      var from, to := if p == |list| then |list| - 1 else p, if q == |list| then |list| - 1 else q;
      Reported(list, id, fame)[k] ==
      if p == |list| && q == |list| then list[k]
      else if k == to then Entry(id, fame)
      else if from <= k < to then list[k + 1]
      else if to < k <= from then list[k - 1]
      else list[k]
  {
    hide Reported, From, To;
    FirstPlaces(list, id, fame, p, q);
    ReportedAt(list, id, fame, k);
  }

  lemma FirstPlaces(list: Ranking, id: int, fame: int, p: nat, q: nat)
    requires p <= |list| && (p < |list| ==> list[p].id == id) && forall k | 0 <= k < p :: list[k].id != id
    requires q <= |list| && (q < |list| ==> list[q].fame <= fame) && forall k | 0 <= k < q :: list[k].fame > fame
    ensures PlaceOf(list, id) == p && PlaceFor(list, fame) == q
    ensures list != [] ==> From(list, id) == (if p == |list| then |list| - 1 else p)
    ensures list != [] ==> To(list, fame) == (if q == |list| then |list| - 1 else q)
  {
    var p', q' := PlaceOf(list, id), PlaceFor(list, fame);
    assert p == p' && q == q';
  }

  /** A report keeps the order unless it lowers a listed player past an entry that it still beats. */
  lemma SortedExactly(list: Ranking, id: int, fame: int)
    requires Sorted(list)
    ensures
      var p, f := PlaceOf(list, id), PlaceFor(list, fame);
      Sorted(Reported(list, id, fame)) <==> !(p < f < |list| && list[f].fame < fame)
  {
    hide Reported, PlaceOf, PlaceFor;
    var p, f := PlaceOf(list, id), PlaceFor(list, fame);
    var r := Reported(list, id, fame);
    if list != [] {
      if p < f < |list| && list[f].fame < fame {
        ReportedAt(list, id, fame, f);
        ReportedAt(list, id, fame, f - 1);
      } else {
        forall i, j | 0 <= i < j < |list| ensures r[i].fame >= r[j].fame {
          ReportedAt(list, id, fame, i);
          ReportedAt(list, id, fame, j);
        }
      }
    }
  }

  /** Where an entry other than the moved one ends up. */
  function NewPlace(list: Ranking, id: int, fame: int, q: nat): nat
    requires list != []
  {
    var from, to := From(list, id), To(list, fame);
    if from < q <= to then q - 1 else if to <= q < from then q + 1 else q
  }

  lemma OthersStay(list: Ranking, id: int, fame: int, q: nat)
    requires q < |list| && q != From(list, id)
    requires PlaceOf(list, id) < |list| || PlaceFor(list, fame) < |list|
    ensures var k := NewPlace(list, id, fame, q); k < |list| && k != To(list, fame) && Reported(list, id, fame)[k] == list[q]
  {
    hide Reported, PlaceOf, PlaceFor;
    ReportedAt(list, id, fame, NewPlace(list, id, fame, q));
  }

  /** Conversely every entry but the reported one was there before, in the same order. */
  lemma OthersWere(list: Ranking, id: int, fame: int, k: nat) returns (q: nat)
    requires k < |list| && k != To(list, fame)
    requires PlaceOf(list, id) < |list| || PlaceFor(list, fame) < |list|
    ensures q < |list| && q != From(list, id) && NewPlace(list, id, fame, q) == k && Reported(list, id, fame)[k] == list[q]
  {
    hide Reported, PlaceOf, PlaceFor;
    ReportedAt(list, id, fame, k);
    var from, to := From(list, id), To(list, fame);
    q := if from <= k < to then k + 1 else if to < k <= from then k - 1 else k;
  }

  /** A report leaves the listed players distinct and in front of the vacant places unless it lowers
      a listed player below zero or past a vacant place. */
  lemma ProperExactly(list: Ranking, id: int, fame: int)
    requires Sorted(list) && Proper(list) && id != 0
    ensures
      var p, f := PlaceOf(list, id), PlaceFor(list, fame);
      Proper(Reported(list, id, fame)) <==> !(p < |list| && (fame < 0 || (p < f < |list| && list[f].id == 0)))
  {
    hide Reported, PlaceOf, PlaceFor;
    var p, f := PlaceOf(list, id), PlaceFor(list, fame);
    if p == |list| && f == |list| {
      forall k | 0 <= k < |list| ensures Reported(list, id, fame)[k] == list[k] { ReportedAt(list, id, fame, k); }
    } else {
      ReportedAt(list, id, fame, To(list, fame));
      if p < |list| && fame >= 0 && p < f < |list| && list[f].id == 0 {
        OthersStay(list, id, fame, f);
      } else if !(p < |list| && fame < 0) {
        ReportProper(list, id, fame);
      }
    }
  }

  lemma ReportProper(list: Ranking, id: int, fame: int)
    requires Sorted(list) && Proper(list) && id != 0
    requires PlaceOf(list, id) < |list| || PlaceFor(list, fame) < |list|
    requires fame >= 0 && !(PlaceOf(list, id) < PlaceFor(list, fame) < |list| && list[PlaceFor(list, fame)].id == 0)
    ensures Proper(Reported(list, id, fame))
  {
    hide Reported, PlaceOf, PlaceFor;
    var r, from, to := Reported(list, id, fame), From(list, id), To(list, fame);
    ReportedAt(list, id, fame, to);
    forall i, j | 0 <= i < j < |list|
      ensures r[i].id != 0 ==> r[i].id != r[j].id
      ensures r[i].id == 0 ==> r[j].id == 0
    {
      if i != to { var a := OthersWere(list, id, fame, i); }
      if j != to { var b := OthersWere(list, id, fame, j); }
    }
    forall i | 0 <= i < |list| ensures r[i].fame >= 0 && (r[i].id == 0 ==> r[i] == VACANT) {
      if i != to { var a := OthersWere(list, id, fame, i); }
    }
  }

  /** Some player outside the ranking has more than `fame`. */
  predicate Outdone(list: Ranking, scores: Scores, fame: int) {
    exists x | x in scores :: !Listed(list, x) && scores[x] > fame
  }

  /** Whoever is not listed after the report beats nobody: the least place may have been given up. */
  lemma UnlistedBelow(list: Ranking, scores: Scores, id: int, fame: int, x: int, i: nat)
    requires Sorted(list) && TopOf(list, scores) && id != 0
    requires PlaceOf(list, id) < |list| || PlaceFor(list, fame) < |list|
    requires PlaceOf(list, id) < |list| ==> !Outdone(list, scores, fame)
    requires x in scores[id := fame] && !Listed(Reported(list, id, fame), x) && i < |list|
    ensures scores[id := fame][x] <= Reported(list, id, fame)[i].fame
  {
    var p, f := PlaceOf(list, id), PlaceFor(list, fame);
    assert p < |list| ==> list[p].id == id;
    hide Reported, PlaceOf, PlaceFor;
    var r, from, to := Reported(list, id, fame), From(list, id), To(list, fame);
    ReportedAt(list, id, fame, to);
    assert x != id;
    if Listed(list, x) {
      var q :| 0 <= q < |list| && list[q].id == x;
      if q != from { OthersStay(list, id, fame, q); }
      assert q == |list| - 1;
    }
    assert forall k | 0 <= k < |list| :: scores[x] <= list[k].fame;
    if i != to { var a := OthersWere(list, id, fame, i); }
  }

  /** Whoever is listed after the report is shown with the latest score. */
  lemma ShownIsLatest(list: Ranking, scores: Scores, id: int, fame: int, i: nat)
    requires Proper(list) && TopOf(list, scores) && id != 0 && i < |list|
    requires PlaceOf(list, id) < |list| || PlaceFor(list, fame) < |list|
    ensures
      var x := Reported(list, id, fame)[i];
      x.id != 0 ==> x.id in scores[id := fame] && scores[id := fame][x.id] == x.fame
  {
    assert forall a | 0 <= a < |list| && list[a].id == id :: a == From(list, id);
    hide Reported, PlaceOf, PlaceFor, From, To, Listed;
    if i == To(list, fame) {
      ReportedAt(list, id, fame, i);
    } else {
      var a := OthersWere(list, id, fame, i);
    }
  }

  lemma ReportTop(list: Ranking, scores: Scores, id: int, fame: int)
    requires Ranks(list, scores) && id != 0 && (PlaceOf(list, id) < |list| ==> !Outdone(list, scores, fame))
    ensures TopOf(Reported(list, id, fame), scores[id := fame])
  {
    var p, f := PlaceOf(list, id), PlaceFor(list, fame);
    hide Reported, PlaceOf, PlaceFor, Outdone;
    var r, scores' := Reported(list, id, fame), scores[id := fame];
    if p == |list| && f == |list| {
      forall k | 0 <= k < |list| ensures r[k] == list[k] { ReportedAt(list, id, fame, k); }
    } else {
      forall i | 0 <= i < |list| && r[i].id != 0
        ensures r[i].id in scores' && scores'[r[i].id] == r[i].fame
      {
        ShownIsLatest(list, scores, id, fame, i);
      }
      forall x, i | x in scores' && !Listed(r, x) && 0 <= i < |list|
        ensures scores'[x] <= r[i].fame
      {
        UnlistedBelow(list, scores, id, fame, x, i);
      }
    }
  }

  /** A report keeps the ranking a top of the latest scores unless it lowers a listed player below
      one who is not listed. */
  lemma TopExactly(list: Ranking, scores: Scores, id: int, fame: int)
    requires Ranks(list, scores) && id != 0
    ensures TopOf(Reported(list, id, fame), scores[id := fame]) <==>
            !(PlaceOf(list, id) < |list| && Outdone(list, scores, fame))
  {
    hide Reported, PlaceOf, PlaceFor;
    if PlaceOf(list, id) < |list| && Outdone(list, scores, fame) {
      var x :| x in scores && !Listed(list, x) && scores[x] > fame;
      var r, to := Reported(list, id, fame), To(list, fame);
      ReportedAt(list, id, fame, to);
      assert list[PlaceOf(list, id)].id == id;
      if i :| 0 <= i < |list| && r[i].id == x {
        var a := OthersWere(list, id, fame, i);
        assert false;
      }
      assert !Listed(r, x) && scores[id := fame][x] == scores[x];
    } else {
      ReportTop(list, scores, id, fame);
    }
  }

  /** A report does no harm: it lowers a listed player past nobody it still beats, past no vacant
      place, not below zero, and not below an unlisted player. */
  ghost predicate Harmless(list: Ranking, scores: Scores, id: int, fame: int) {
    var p, f := PlaceOf(list, id), PlaceFor(list, fame);
    p == |list| ||
    (fame >= 0 && !Outdone(list, scores, fame) && !(p < f < |list| && (list[f].fame < fame || list[f].id == 0)))
  }

  /** The three conditions in one: a report keeps the ranking right exactly when it does no harm. */
  lemma RanksExactly(list: Ranking, scores: Scores, id: int, fame: int)
    requires Ranks(list, scores) && id != 0
    ensures Ranks(Reported(list, id, fame), scores[id := fame]) <==> Harmless(list, scores, id, fame)
  {
    hide Reported, PlaceOf, PlaceFor, Sorted, Proper, TopOf, Outdone;
    SortedExactly(list, id, fame);
    ProperExactly(list, id, fame);
    TopExactly(list, scores, id, fame);
  }

  /** A fame that does not fall does no harm. */
  lemma RiseIsHarmless(list: Ranking, scores: Scores, id: int, fame: int)
    requires Ranks(list, scores) && id != 0 && (id in scores ==> scores[id] <= fame)
    ensures Harmless(list, scores, id, fame)
  {
    var p := PlaceOf(list, id);
    hide PlaceOf, PlaceFor;
    if p < |list| { assert list[p].id == id; }
  }

  // ----- every run of reports

  datatype Report = Report(id: int, fame: int)

  function After(list: Ranking, reports: seq<Report>): (r: Ranking)
    ensures |r| == |list|
  {
    if reports == [] then list
    else
      var last := reports[|reports| - 1];
      Reported(After(list, reports[..|reports| - 1]), last.id, last.fame)
  }

  function Latest(scores: Scores, reports: seq<Report>): Scores {
    if reports == [] then scores
    else
      var last := reports[|reports| - 1];
      Latest(scores, reports[..|reports| - 1])[last.id := last.fame]
  }

  /** No player's fame falls. */
  predicate Rising(scores: Scores, reports: seq<Report>) {
    forall i | 0 <= i < |reports| ::
      && reports[i].id != 0
      && (reports[i].id in Latest(scores, reports[..i]) ==> Latest(scores, reports[..i])[reports[i].id] <= reports[i].fame)
  }

  /** After every run in which nobody's fame falls the ranking is sorted, holds distinct players
      before any vacant place, and is a top of the latest scores. */
  lemma {:induction false} RankingStays(list: Ranking, scores: Scores, reports: seq<Report>)
    requires Ranks(list, scores) && Rising(scores, reports)
    ensures Ranks(After(list, reports), Latest(scores, reports))
  {
    if reports != [] {
      var older, last := reports[..|reports| - 1], reports[|reports| - 1];
      assert forall i | 0 <= i < |older| :: older[..i] == reports[..i];
      OneMore(list, scores, reports);
      hide Ranks, Reported, After, Latest, Harmless;
      RankingStays(list, scores, older);
      RiseIsHarmless(After(list, older), Latest(scores, older), last.id, last.fame);
      RanksExactly(After(list, older), Latest(scores, older), last.id, last.fame);
    }
  }

  /** Whatever is reported, the ranking is right all along a run exactly when no report of it does harm. */
  ghost predicate RightAlong(list: Ranking, scores: Scores, reports: seq<Report>) {
    forall k | 0 <= k <= |reports| :: Ranks(After(list, reports[..k]), Latest(scores, reports[..k]))
  }

  ghost predicate HarmlessAlong(list: Ranking, scores: Scores, reports: seq<Report>) {
    forall k | 0 <= k < |reports| ::
      Harmless(After(list, reports[..k]), Latest(scores, reports[..k]), reports[k].id, reports[k].fame)
  }

  lemma {:induction false} RankingStaysExactly(list: Ranking, scores: Scores, reports: seq<Report>)
    requires Ranks(list, scores) && forall k | 0 <= k < |reports| :: reports[k].id != 0
    ensures RightAlong(list, scores, reports) <==> HarmlessAlong(list, scores, reports)
  {
    hide Ranks, Harmless, After, Latest;
    if reports == [] {
      assert reports[..0] == [];
      StartOfRun(list, scores);
    } else {
      var n := |reports| - 1;
      var older, last := reports[..n], reports[n];
      assert reports[..n + 1] == reports;
      assert forall k | 0 <= k <= n :: older[..k] == reports[..k];
      RankingStaysExactly(list, scores, older);
      OneMore(list, scores, reports);
      if Ranks(After(list, older), Latest(scores, older)) {
        RanksExactly(After(list, older), Latest(scores, older), last.id, last.fame);
      }
      assert RightAlong(list, scores, older) ==> Ranks(After(list, older[..n]), Latest(scores, older[..n]));
    }
  }

  lemma StartOfRun(list: Ranking, scores: Scores)
    ensures After(list, []) == list && Latest(scores, []) == scores
  {}

  lemma OneMore(list: Ranking, scores: Scores, reports: seq<Report>)
    requires reports != []
    ensures
      var older, last := reports[..|reports| - 1], reports[|reports| - 1];
      && After(list, reports) == Reported(After(list, older), last.id, last.fame)
      && Latest(scores, reports) == Latest(scores, older)[last.id := last.fame]
  {}

  // ----- in place

  /** `ARR_MOVE`: one entry moves, those between shift over by one. */
  method Move(list: array<Entry>, from: nat, to: nat)
    requires from < list.Length && to < list.Length
    modifies list
    ensures list[..] == Moved(old(list[..]), from, to)
  {
    ghost var before := list[..];
    var backup := list[from];
    var k := from;
    if from < to {
      while k < to
        invariant from <= k <= to
        invariant forall m | from <= m < k :: list[m] == before[m + 1]
        invariant forall m | 0 <= m < from || k <= m < list.Length :: list[m] == before[m]
      {
        list[k] := list[k + 1];
        k := k + 1;
      }
    } else {
      while k > to
        invariant to <= k <= from
        invariant forall m | k < m <= from :: list[m] == before[m - 1]
        invariant forall m | 0 <= m <= k || from < m < list.Length :: list[m] == before[m]
      {
        list[k] := list[k - 1];
        k := k - 1;
      }
    }
    list[to] := backup;
    forall m | 0 <= m < list.Length ensures list[m] == Moved(before, from, to)[m] { MovedAt(before, from, to, m); }
  }

  /** `chmapif_parse_updfamelist`, the list of one ranking.  `sent` is what the map-servers are told:
      one place, the whole ranking, or nothing. */
  method UpdateFame(list: array<Entry>, cid: int, fame: int) returns (sent: Notice)
    modifies list
    ensures list[..] == Reported(old(list[..]), cid, fame)
    ensures sent == Nothing ==> list[..] == old(list[..])
    ensures sent.One? ==> sent.place < list.Length && list[..] == old(list[..])[sent.place := Entry(cid, fame)]
  {
    hide Moved;
    var size, playerPos, famePos := list.Length, 0, 0;
    while playerPos < size && list[playerPos].id != cid
      invariant playerPos <= size && forall k | 0 <= k < playerPos :: list[k].id != cid
    {
      playerPos := playerPos + 1;
    }
    while famePos < size && list[famePos].fame > fame
      invariant famePos <= size && forall k | 0 <= k < famePos :: list[k].fame > fame
    {
      famePos := famePos + 1;
    }
    ghost var before := list[..];
    assert playerPos == PlaceOf(before, cid) && famePos == PlaceFor(before, fame);
    hide PlaceOf, PlaceFor;
    if playerPos == size && famePos == size {
      return Nothing;
    } else if famePos == playerPos {
      list[playerPos] := list[playerPos].(fame := fame);
      return One(playerPos);
    } else if playerPos == size {
      Move(list, size - 1, famePos);
      list[famePos] := Entry(cid, fame);
    } else {
      if famePos == size { famePos := famePos - 1; }
      Move(list, playerPos, famePos);
      MovedAt(before, playerPos, famePos, famePos);
      list[famePos] := list[famePos].(fame := fame);
    }
    return All;
  }

  datatype Notice = Nothing | One(place: nat) | All

  /** One block of `chmapif_send_fame_list`: everything before the first vacant place, which is
      everybody listed. */
  method SendList(list: array<Entry>) returns (block: seq<Entry>)
    ensures block <= list[..] && forall k | 0 <= k < |block| :: block[k].id != 0
    ensures |block| < list.Length ==> list[|block|].id == 0
    ensures Proper(list[..]) ==> forall k | 0 <= k < list.Length :: list[k].id != 0 <==> k < |block|
  {
    block := [];
    var i := 0;
    while i < list.Length && list[i].id != 0
      invariant i <= list.Length && block == list[..i] && forall k | 0 <= k < i :: list[k].id != 0
    {
      block := block + [list[i]];
      i := i + 1;
    }
  }

  /** `char_read_fame_list`: the players of a ranking with any fame, best first, fill the places. */
  method ReadList(list: array<Entry>, rows: seq<Entry>, ghost scores: Scores)
    requires Sorted(rows) && (forall i | 0 <= i < |rows| :: rows[i].id != 0 && rows[i].fame > 0)
    requires forall i, j | 0 <= i < j < |rows| :: rows[i].id != rows[j].id
    requires 0 !in scores && forall i | 0 <= i < |rows| :: rows[i].id in scores && scores[rows[i].id] == rows[i].fame
    requires forall id | id in scores && scores[id] > 0 :: Listed(rows, id)
    modifies list
    ensures Ranks(list[..], scores)
    ensures forall k | 0 <= k < list.Length :: list[k] == if k < |rows| then rows[k] else VACANT
  {
    var i := 0;
    while i < list.Length
      invariant i <= list.Length && forall k | 0 <= k < i :: list[k] == VACANT
    {
      list[i] := VACANT;
      i := i + 1;
    }
    i := 0;
    while i < list.Length && i < |rows|
      invariant i <= list.Length && i <= |rows|
      invariant forall k | 0 <= k < list.Length :: list[k] == if k < i then rows[k] else VACANT
    {
      list[i] := rows[i];
      i := i + 1;
    }
    FilledRanks(list[..], rows, scores);
  }

  lemma FilledRanks(list: Ranking, rows: seq<Entry>, scores: Scores)
    requires Sorted(rows) && (forall i | 0 <= i < |rows| :: rows[i].id != 0 && rows[i].fame > 0)
    requires forall i, j | 0 <= i < j < |rows| :: rows[i].id != rows[j].id
    requires 0 !in scores && forall i | 0 <= i < |rows| :: rows[i].id in scores && scores[rows[i].id] == rows[i].fame
    requires forall id | id in scores && scores[id] > 0 :: Listed(rows, id)
    requires forall k | 0 <= k < |list| :: list[k] == if k < |rows| then rows[k] else VACANT
    ensures Ranks(list, scores)
  {
    forall id, k | id in scores && 0 <= k < |list|
      ensures Listed(list, id) || scores[id] <= list[k].fame
    {
      if scores[id] > 0 {
        var q :| 0 <= q < |rows| && rows[q].id == id;
        assert q < |list| ==> list[q].id == id;
      }
    }
  }

  /** A falling score that does harm: the only place is kept by a player whom an unlisted one now beats. */
  lemma FallBreaksTop()
    ensures Ranks([Entry(1, 10)], map[1 := 10, 2 := 5])
    ensures !TopOf(Reported([Entry(1, 10)], 1, 3), map[1 := 10, 2 := 5][1 := 3])
  {
    assert [Entry(1, 10)][0].id == 1 && !Listed([Entry(1, 10)], 2);
    TopExactly([Entry(1, 10)], map[1 := 10, 2 := 5], 1, 3);
  }

  /** Another: a player comes to stand behind a vacant place, so nobody is told of them any more. */
  lemma FallHides()
    ensures Ranks([Entry(1, 10), VACANT], map[1 := 10])
    ensures !Proper(Reported([Entry(1, 10), VACANT], 1, 0))
  {
    var list := [Entry(1, 10), VACANT];
    assert list[0].id == 1 && list[1] == VACANT && list[1..] == [VACANT];
    ProperExactly(list, 1, 0);
  }

  /** Another: a player comes to stand behind one whom they still beat. */
  lemma FallBreaksOrder()
    ensures Ranks([Entry(1, 10), Entry(2, 5)], map[1 := 10, 2 := 5])
    ensures !Sorted(Reported([Entry(1, 10), Entry(2, 5)], 1, 7))
  {
    var list := [Entry(1, 10), Entry(2, 5)];
    assert list[0].id == 1 && list[1].id == 2 && list[1..] == [Entry(2, 5)];
    SortedExactly(list, 1, 7);
  }
}
