/** Parties: the number of members online and their level range are kept up to date by each request
    only where they may have changed, and even sharing of experience is switched off when it no
    longer fits. */
module Party {

  const MAX_PARTY := 12
  const UINT_MAX := 0xFFFF_FFFF
  const MAX_LV := 0xFFFF

  /** A slot; an unused one is all zero. */
  datatype Member = Member(account: int, charId: int, jobClass: bv16, mapId: int, lv: int, leader: bool, online: bool)

  const NOBODY := Member(0, 0, 0, 0, 0, false, false)

  type Members = seq<Member>

  /** The kinship queries: is one character the child of another, and who is the child among three. */
  datatype Kinship = Kinship(isChild: (int, int) -> bool, childOf: (int, int, int) -> int)

  // ----- what the bookkeeping must agree with

  predicate Occupied(m: Member) { m.account != 0 && 0 < m.lv <= MAX_LV }

  predicate Slot(m: Member) { Occupied(m) || (m.account == 0 && m.lv == 0 && !m.online) }

  predicate Slots(ms: Members) {
    |ms| == MAX_PARTY && forall i | 0 <= i < |ms| :: Slot(ms[i])
  }

  predicate OnlineLevels(ms: Members) { forall i | 0 <= i < |ms| && ms[i].online :: ms[i].lv != 0 }

  predicate Levels(ms: Members) {
    |ms| == MAX_PARTY && forall i | 0 <= i < |ms| :: 0 <= ms[i].lv <= MAX_LV
  }

  function CountOnline(ms: Members): nat {
    if ms == [] then 0 else CountOnline(ms[..|ms| - 1]) + (if ms[|ms| - 1].online then 1 else 0)
  }

  function CountOccupied(ms: Members): nat {
    if ms == [] then 0 else CountOccupied(ms[..|ms| - 1]) + (if ms[|ms| - 1].lv != 0 then 1 else 0)
  }

  /** `lo` and `hi` are the least and the greatest level online. */
  predicate IsRange(ms: Members, lo: int, hi: int) {
    if forall i | 0 <= i < |ms| :: !ms[i].online then lo == UINT_MAX && hi == 0
    else
      && (forall i | 0 <= i < |ms| && ms[i].online :: lo <= ms[i].lv <= hi)
      && (exists i | 0 <= i < |ms| :: ms[i].online && ms[i].lv == lo)
      && (exists i | 0 <= i < |ms| :: ms[i].online && ms[i].lv == hi)
  }

  /** The map of the first member who is the child. */
  function ChildMap(ms: Members, child: int): int {
    if ms == [] then 0 else if ms[0].charId == child then ms[0].mapId else ChildMap(ms[1..], child)
  }

  /** Both parents are online, on the child's map and of level 70. */
  predicate FamilyShare(ms: Members, child: int) {
    && child != 0
    && forall i | 0 <= i < |ms| && ms[i].lv != 0 && ms[i].charId != child ::
         ms[i].online && ms[i].mapId == ChildMap(ms, child) && ms[i].lv >= 70
  }

  /** Unsigned difference of the level bounds. */
  function Spread(lo: int, hi: int): int { (hi - lo) % (UINT_MAX + 1) }

  // ----- one slot changes

  lemma {:induction false} CountsUpdate(ms: Members, i: nat, m: Member)
    requires i < |ms|
    ensures CountOnline(ms[i := m]) == CountOnline(ms) - (if ms[i].online then 1 else 0) + (if m.online then 1 else 0)
    ensures CountOccupied(ms[i := m]) == CountOccupied(ms) - (if ms[i].lv != 0 then 1 else 0) + (if m.lv != 0 then 1 else 0)
  {
    var n := |ms| - 1;
    if i == n {
      assert ms[i := m][..n] == ms[..n];
    } else {
      CountsUpdate(ms[..n], i, m);
      assert ms[i := m][..n] == ms[..n][i := m];
    }
  }

  /** The slots whose member is such-and-such. */
  function Having(ms: Members, p: Member -> bool): set<nat> { set k: nat | k < |ms| && p(ms[k]) }

  lemma HavingLast(ms: Members, p: Member -> bool)
    requires ms != []
    ensures
      var n := |ms| - 1;
      |Having(ms, p)| == |Having(ms[..n], p)| + if p(ms[n]) then 1 else 0
  {
    var n := |ms| - 1;
    var older := Having(ms[..n], p);
    assert forall k | k in older :: ms[..n][k] == ms[k];
    if p(ms[n]) {
      assert Having(ms, p) == older + {n};
    } else {
      assert Having(ms, p) == older;
    }
  }

  function IsOnline(): Member -> bool { (m: Member) => m.online }
  function HasLevel(): Member -> bool { (m: Member) => m.lv != 0 }
  function IsAttached(): Member -> bool { (m: Member) => m.account != 0 }

  /** The counts are numbers of slots. */
  lemma {:induction false} CountsMean(ms: Members)
    ensures CountOnline(ms) == |Having(ms, IsOnline())|
    ensures CountOccupied(ms) == |Having(ms, HasLevel())|
  {
    hide Having;
    if ms == [] {
      NobodyHas();
    } else {
      CountsMean(ms[..|ms| - 1]);
      HavingLast(ms, IsOnline());
      HavingLast(ms, HasLevel());
    }
  }

  lemma NobodyHas()
    ensures forall p: Member -> bool :: Having([], p) == {}
  {}

  lemma {:induction false} CountsBound(ms: Members)
    ensures CountOnline(ms) <= |ms| && CountOccupied(ms) <= |ms|
  {
    if ms != [] { CountsBound(ms[..|ms| - 1]); }
  }

  /** Nobody at a bound joins, leaves or moves outside: the range stays. */
  lemma RangeKept(ms: Members, i: nat, m: Member, lo: int, hi: int)
    requires i < |ms| && IsRange(ms, lo, hi) && Slots(ms)
    requires ms[i].online ==> ms[i].lv != lo && ms[i].lv != hi
    requires m.online ==> lo <= m.lv <= hi
    ensures IsRange(ms[i := m], lo, hi)
  {
    var ms' := ms[i := m];
    if exists k | 0 <= k < |ms| :: ms[k].online {
      var a :| 0 <= a < |ms| && ms[a].online && ms[a].lv == lo;
      var b :| 0 <= b < |ms| && ms[b].online && ms[b].lv == hi;
      assert a != i && b != i && ms'[a] == ms[a] && ms'[b] == ms[b];
    }
  }

  lemma RangeIsUnique(ms: Members, lo: int, hi: int, lo': int, hi': int)
    requires IsRange(ms, lo, hi) && IsRange(ms, lo', hi')
    ensures lo == lo' && hi == hi'
  {}

  lemma {:induction false} NoneOnline(ms: Members)
    requires forall i | 0 <= i < |ms| :: !ms[i].online
    ensures CountOnline(ms) == 0
  {
    if ms != [] { NoneOnline(ms[..|ms| - 1]); }
  }

  /** With one member online the range is a single level. */
  lemma AloneRange(ms: Members, lo: int, hi: int)
    requires IsRange(ms, lo, hi) && CountOnline(ms) == 1
    ensures lo == hi
  {
    if forall i | 0 <= i < |ms| :: !ms[i].online { NoneOnline(ms); }
    var a :| 0 <= a < |ms| && ms[a].online && ms[a].lv == lo;
    var b :| 0 <= b < |ms| && ms[b].online && ms[b].lv == hi;
    if a != b {
      CountsUpdate(ms, a, NOBODY);
      CountsUpdate(ms[a := NOBODY], b, NOBODY);
    }
  }

  // ----- what sharing means for the members

  /** Any two members online are at most so many levels apart. */
  predicate Close(ms: Members, shareLevel: int) {
    forall i, j | 0 <= i < |ms| && 0 <= j < |ms| && ms[i].online && ms[j].online :: ms[i].lv - ms[j].lv <= shareLevel
  }

  /** At least two members are online. */
  predicate Company(ms: Members) {
    exists i, j :: 0 <= i < j < |ms| && ms[i].online && ms[j].online
  }

  lemma {:induction false} CompanyCounts(ms: Members)
    ensures CountOnline(ms) >= 2 <==> Company(ms)
    ensures CountOnline(ms) >= 1 <==> exists i | 0 <= i < |ms| :: ms[i].online
  {
    if ms != [] {
      var n := |ms| - 1;
      var older := ms[..n];
      CompanyCounts(older);
      assert forall i | 0 <= i < n :: older[i] == ms[i];
      if Company(older) {
        var i, j :| 0 <= i < j < n && older[i].online && older[j].online;
        assert ms[i].online && ms[j].online;
      }
      if ms[n].online && exists i | 0 <= i < n :: older[i].online {
        var i :| 0 <= i < n && older[i].online;
        assert ms[i].online && ms[n].online;
      }
    }
  }

  /** With somebody online the bounds fit the share level exactly when all members online do. */
  lemma SpreadFits(ms: Members, lo: int, hi: int, shareLevel: int)
    requires Slots(ms) && IsRange(ms, lo, hi) && CountOnline(ms) >= 1
    ensures Spread(lo, hi) <= shareLevel <==> Close(ms, shareLevel)
  {
    CompanyCounts(ms);
    var a :| 0 <= a < |ms| && ms[a].online && ms[a].lv == lo;
    var b :| 0 <= b < |ms| && ms[b].online && ms[b].lv == hi;
    assert 0 <= hi - lo <= MAX_LV && Spread(lo, hi) == ms[b].lv - ms[a].lv;
    forall i, j | 0 <= i < |ms| && 0 <= j < |ms| && ms[i].online && ms[j].online
      ensures ms[i].lv - ms[j].lv <= hi - lo
    {}
  }

  /** The family rule, for a party whose child is in slot `k`. */
  lemma FamilyShareMeans(ms: Members, k: nat)
    requires k < |ms| && forall j | 0 <= j < k :: ms[j].charId != ms[k].charId
    ensures FamilyShare(ms, ms[k].charId) <==>
            && ms[k].charId != 0
            && forall i | 0 <= i < |ms| && ms[i].lv != 0 && ms[i].charId != ms[k].charId ::
                 ms[i].online && ms[i].mapId == ms[k].mapId && ms[i].lv >= 70
  {
    ChildMapIs(ms, k);
  }

  lemma {:induction false} ChildMapIs(ms: Members, k: nat)
    requires k < |ms| && forall j | 0 <= j < k :: ms[j].charId != ms[k].charId
    ensures ChildMap(ms, ms[k].charId) == ms[k].mapId
  {
    if k > 0 {
      assert ms[0].charId != ms[k].charId;
      ChildMapIs(ms[1..], k - 1);
    }
  }

  // ----- the party

  class Party {
    const member: array<Member>
    const kin: Kinship
    var count: nat
    var size: nat
    var minLv: int
    var maxLv: int
    var family: int
    var exp: bool
    var item: int
    var broken: bool

    ghost predicate Valid()
      reads this, member
    {
      Slots(member[..])
    }

    /** Count and size are right, and so is the family if there is one. */
    ghost predicate Counted()
      reads this, member
    {
      && Valid() && count == CountOnline(member[..]) && size == CountOccupied(member[..])
      && (family == 0 || family == FamilyOf(kin, member[..]))
    }

    /** The incremental fields equal a full recomputation; the family is dropped when members come or go. */
    ghost predicate Accurate()
      reads this, member
    {
      Counted() && IsRange(member[..], minLv, maxLv)
    }

    /** `party_check_exp_share`. */
    ghost predicate MayShare(shareLevel: int)
      reads this, member
    {
      count < 2 || Spread(minLv, maxLv) <= shareLevel || FamilyShare(member[..], family)
    }

    /** Even sharing is on only while it is allowed. */
    ghost predicate ShareSound(shareLevel: int)
      reads this, member
    {
      exp ==> MayShare(shareLevel)
    }

    /** Sharing is allowed with fewer than two members online, among members close in level, and to families. */
    lemma ShareMeans(shareLevel: int)
      requires Accurate()
      ensures MayShare(shareLevel) <==>
              !Company(member[..]) || Close(member[..], shareLevel) || FamilyShare(member[..], family)
    {
      CompanyCounts(member[..]);
      hide IsRange, FamilyShare, Spread, CountOnline, Close, Company;
      if count >= 2 { SpreadFits(member[..], minLv, maxLv, shareLevel); }
    }

    /** What the invariant says about an accurate party: even sharing is on only where it is allowed. */
    lemma ShareSoundMeans(shareLevel: int)
      requires Accurate()
      ensures ShareSound(shareLevel) <==>
              (exp && Company(member[..]) ==> Close(member[..], shareLevel) || FamilyShare(member[..], family))
    {
      ShareMeans(shareLevel);
    }

    method CheckFamilyShare() returns (ok: bool)
      requires Levels(member[..])
      ensures ok == FamilyShare(member[..], family)
    {
      if family == 0 { return false; }
      var mapId, i := 0, 0;
      while i < MAX_PARTY && member[i].charId != family
        invariant i <= MAX_PARTY && ChildMap(member[i..], family) == ChildMap(member[..], family)
      {
        i := i + 1;
      }
      if i < MAX_PARTY { mapId := member[i].mapId; }
      assert mapId == ChildMap(member[..], family);
      i := 0;
      while i < MAX_PARTY
        invariant i <= MAX_PARTY
        invariant forall k | 0 <= k < i && member[k].lv != 0 && member[k].charId != family ::
            member[k].online && member[k].mapId == mapId && member[k].lv >= 70
      {
        if member[i].lv != 0 && family != member[i].charId {
          if !member[i].online || member[i].mapId != mapId || member[i].lv < 70 { return false; }
        }
        i := i + 1;
      }
      return true;
    }

    method CheckExpShare(shareLevel: int) returns (ok: bool)
      requires Levels(member[..])
      ensures ok == MayShare(shareLevel)
      ensures Accurate() && Company(member[..]) ==>
                (ok <==> Close(member[..], shareLevel) || FamilyShare(member[..], family))
      ensures Accurate() && !Company(member[..]) ==> ok
    {
      if Accurate() { ShareMeans(shareLevel); }
      if count < 2 || Spread(minLv, maxLv) <= shareLevel { return true; }
      ok := CheckFamilyShare();
    }

    /** `int_party_check_lv`. */
    method CheckLv(shareLevel: int)
      requires Levels(member[..])
      modifies this`minLv, this`maxLv, this`exp
      ensures IsRange(member[..], minLv, maxLv) && ShareSound(shareLevel)
      ensures exp == (old(exp) && MayShare(shareLevel))
    {
      FindRange();
      if exp {
        var ok := CheckExpShare(shareLevel);
        if !ok { exp := false; }
      }
    }

    method FindRange()
      requires Levels(member[..])
      modifies this`minLv, this`maxLv
      ensures IsRange(member[..], minLv, maxLv)
    {
      minLv, maxLv := UINT_MAX, 0;
      var i := 0;
      while i < MAX_PARTY
        invariant i <= MAX_PARTY && IsRange(member[..i], minLv, maxLv)
      {
        var lv := member[i].lv;
        ghost var lo, hi := minLv, maxLv;
        if member[i].online {
          if lv < minLv { minLv := lv; }
          if lv > maxLv { maxLv := lv; }
        }
        RangeSnoc(member[..i], member[i], lo, hi);
        assert member[..i + 1] == member[..i] + [member[i]];
        i := i + 1;
      }
      assert member[..i] == member[..];
    }

    /** `int_party_calc_state`. */
    method CalcState(shareLevel: int)
      requires Levels(member[..])
      modifies this`count, this`size, this`minLv, this`maxLv, this`family, this`exp
      ensures Valid() ==> Accurate()
      ensures ShareSound(shareLevel) && family == FamilyOf(kin, member[..])
      ensures exp == (old(exp) && MayShare(shareLevel))
    {
      hide IsRange, CountOnline, CountOccupied, FamilyShare;
      if Valid() { SlotsAreLevels(member[..]); }
      CountMembers();
      family := 0;
      if size == 2 && (kin.isChild(member[0].charId, member[1].charId) || kin.isChild(member[1].charId, member[0].charId)) {
        family := if member[0].jobClass & 0x2000 != 0 then member[0].charId else member[1].charId;
      } else if size == 3 {
        family := kin.childOf(member[0].charId, member[1].charId, member[2].charId);
      }
      CheckLv(shareLevel);
    }

    method CountMembers()
      requires Levels(member[..])
      modifies this`count, this`size
      ensures size == CountOccupied(member[..]) && (OnlineLevels(member[..]) ==> count == CountOnline(member[..]))
    {
      ghost var ms := member[..];
      ghost var proper := OnlineLevels(ms);
      count, size := 0, 0;
      EmptyCounts();
      hide CountOnline, CountOccupied;
      var i := 0;
      while i < MAX_PARTY
        invariant i <= MAX_PARTY && size == CountOccupied(ms[..i]) && (proper ==> count == CountOnline(ms[..i]))
      {
        CountsSnoc(ms[..i], ms[i]);
        assert ms[..i + 1] == ms[..i] + [ms[i]];
        if member[i].lv != 0 {
          size := size + 1;
          if member[i].online { count := count + 1; }
        }
        i := i + 1;
      }
      assert ms[..i] == ms;
    }

    /** `mapif_parse_CreateParty`, once the name is accepted and stored. */
    constructor (leader: Member, kin: Kinship, item: int, item2: int, shareLevel: int)
      requires Occupied(leader)
      ensures this.kin == kin && fresh(member) && Accurate() && ShareSound(shareLevel) && !exp && !broken && count == 1
      ensures member[..] == [leader.(leader := true, online := true)] + seq(MAX_PARTY - 1, i => NOBODY)
    {
      member := new Member[MAX_PARTY](i => NOBODY);
      this.kin, exp, broken := kin, false, false;
      this.item := (if item != 0 then 1 else 0) + (if item2 != 0 then 2 else 0);
      new;
      member[0] := leader.(leader := true, online := true);
      assert member[..] == [leader.(leader := true, online := true)] + seq(MAX_PARTY - 1, i => NOBODY);
      OnlyOne(member[..]);
      CalcState(shareLevel);
    }

    /** `inter_party_fromsql`: the members and options stored in the database. */
    constructor FromSql(ms: Members, kin: Kinship, exp: bool, item: int, shareLevel: int)
      requires Slots(ms)
      ensures fresh(member) && this.kin == kin && member[..] == ms && this.item == item && !broken
      ensures Accurate() && ShareSound(shareLevel) && this.exp == (exp && MayShare(shareLevel))
      ensures family == FamilyOf(kin, ms)
    {
      member := new Member[MAX_PARTY](i requires 0 <= i < |ms| => ms[i]);
      this.kin, this.exp, this.item, broken := kin, exp, item, false;
      new;
      assert member[..] == ms;
      CalcState(shareLevel);
    }

    method FindFree() returns (i: nat)
      requires Valid()
      ensures i <= MAX_PARTY
      ensures i < MAX_PARTY ==> !Occupied(member[i]) && member[i].lv == 0 && !member[i].online
      ensures i == MAX_PARTY ==> CountOccupied(member[..]) == MAX_PARTY
    {
      i := 0;
      while i < MAX_PARTY && member[i].account != 0
        invariant i <= MAX_PARTY && forall k | 0 <= k < i :: Occupied(member[k])
      {
        i := i + 1;
      }
      if i == MAX_PARTY { FullCount(member[..]); }
    }

    /** `mapif_parse_PartyAddMember`.  What comes without an account or a level is no member, and the party
        is accurate with it only if all is counted again and it takes up no slot. */
    method AddMember(m: Member, shareLevel: int) returns (added: bool)
      requires Accurate() && ShareSound(shareLevel) && shareLevel >= 0 && 0 <= m.lv <= MAX_LV
      modifies this, member
      ensures ShareSound(shareLevel) && item == old(item) && broken == old(broken)
      ensures Accurate() <==> !added || Occupied(m) || (Slot(m) && old(size) + 1 in {2, 3})
      ensures !added ==> member[..] == old(member[..]) && exp == old(exp) && old(size) == MAX_PARTY
      ensures added ==> exists i | 0 <= i < MAX_PARTY ::
                !old(Occupied(member[i])) && member[..] == old(member[..])[i := m.(leader := false)]
    {
      hide IsRange, CountOnline, CountOccupied, FamilyShare, FamilyOf, Spread;
      CountsBound(member[..]);
      if size == MAX_PARTY { return false; }
      var i := FindFree();
      if i == MAX_PARTY { return false; }
      added := true;
      ghost var before := member[..];
      PutMember(i, m.(leader := false));
      if size == 2 || size == 3 {
        CalcState(shareLevel);
      } else if m.lv < minLv || m.lv > maxLv || family != 0 {
        if family != 0 { family := 0; }
        CheckLv(shareLevel);
      } else {
        RangeKept(before, i, m.(leader := false), minLv, maxLv);
        NarrowRange(before, minLv, maxLv, shareLevel);
        NoFamily(before);
      }
    }

    /** The free slot is filled. */
    method PutMember(i: nat, m: Member)
      requires Counted() && i < MAX_PARTY && size < MAX_PARTY && 0 <= m.lv <= MAX_LV
      requires member[i].lv == 0 && !member[i].online
      modifies this`count, this`size, member
      ensures Levels(member[..]) && member[..] == old(member[..])[i := m]
      ensures Valid() <==> Slot(m)
      ensures count == old(count) + (if m.online then 1 else 0) && size == old(size) + 1
      ensures count == CountOnline(member[..])
      ensures CountOccupied(member[..]) == old(size) + (if m.lv != 0 then 1 else 0)
    {
      hide CountOnline, CountOccupied, FamilyOf;
      ghost var before := member[..];
      CountsUpdate(before, i, m);
      CountsBound(before[i := m]);
      LevelsUpdate(before, i, m);
      if Slot(m) { SlotsUpdate(before, i, m); } else { NoSlot(before, i, m); }
      member[i] := m;
      assert member[..] == before[i := m];
      if m.online { count := (count + 1) % 256; }
      size := (size + 1) % 256;
    }

    /** `mapif_parse_PartyChangeOption`; `exp` is one bit wide. */
    method ChangeOption(wanted: int, item': int, shareLevel: int) returns (refused: bool)
      requires Accurate()
      modifies this
      ensures Accurate() && ShareSound(shareLevel) && member[..] == old(member[..]) && broken == old(broken)
      ensures refused <==> wanted != 0 && !MayShare(shareLevel)
      ensures refused <==>
                && wanted != 0 && Company(member[..])
                && !Close(member[..], shareLevel) && !FamilyShare(member[..], family)
      ensures exp <==> wanted % 2 == 1 && !refused
      ensures item == item' % 4
    {
      hide IsRange, CountOnline, CountOccupied, FamilyShare, Close, Company, Spread;
      if size == 2 || size == 3 { CalcState(shareLevel); }
      exp, refused := wanted % 2 == 1, false;
      ShareMeans(shareLevel);
      if wanted != 0 {
        var ok := CheckExpShare(shareLevel);
        if !ok { exp, refused := false, true; }
      }
      item := item' % 4;
    }

    method FindMember(account: int, charId: int) returns (i: nat)
      requires Valid()
      ensures i <= MAX_PARTY
      ensures i < MAX_PARTY ==> member[i].account == account && member[i].charId == charId
      ensures forall k | 0 <= k < i :: member[k].account != account || member[k].charId != charId
    {
      i := 0;
      while i < MAX_PARTY && (member[i].account != account || member[i].charId != charId)
        invariant i <= MAX_PARTY && forall k | 0 <= k < i :: member[k].account != account || member[k].charId != charId
      {
        i := i + 1;
      }
    }

    /** The slot is cleared; bounds and sharing are looked at again only where they may have changed.
        Clearing an unused slot makes the size wrong. */
    method RemoveMember(i: nat, shareLevel: int)
      requires Accurate() && ShareSound(shareLevel) && i < MAX_PARTY
      modifies this, member
      ensures Accurate() <==> old(Occupied(member[i]))
      ensures ShareSound(shareLevel) && item == old(item) && broken == old(broken)
      ensures member[..] == old(member[..])[i := NOBODY]
    {
      hide IsRange, CountOnline, CountOccupied, FamilyShare, Spread;
      ghost var before := member[..];
      var lv := member[i].lv;
      CountsUpdate(before, i, NOBODY);
      CountsBound(before);
      if member[i].online { count := (count + 255) % 256; }
      member[i] := NOBODY;
      assert member[..] == before[i := NOBODY];
      size := (size + 255) % 256;
      SlotsUpdate(before, i, NOBODY);
      if lv == minLv || lv == maxLv || family != 0 {
        if family != 0 { family := 0; }
        CheckLv(shareLevel);
      } else {
        RangeKept(before, i, NOBODY, minLv, maxLv);
        NoFamily(before);
      }
    }

    /** No slot holds this account and character. */
    predicate Absent(account: int, charId: int)
      reads this, member
    {
      forall k | 0 <= k < member.Length :: member[k].account != account || member[k].charId != charId
    }

    /** `mapif_parse_PartyLeave`.  A leader takes everybody along; a party without members is broken up. */
    method Leave(account: int, charId: int, shareLevel: int) returns (withdrawn: seq<int>)
      requires Accurate() && ShareSound(shareLevel)
      modifies this, member
      ensures broken <==> old(broken) || (withdrawn != [] && forall k | 0 <= k < MAX_PARTY :: member[k].account == 0)
      ensures !broken ==> ShareSound(shareLevel)
      ensures !broken ==> (Accurate() <==> account != 0 || old(Absent(account, charId)))
      ensures withdrawn == [] ==> member[..] == old(member[..]) && forall k | 0 <= k < MAX_PARTY ::
                member[k].account != account || member[k].charId != charId
      ensures withdrawn != [] ==> withdrawn[0] == charId
      ensures withdrawn != [] ==> exists i | 0 <= i < MAX_PARTY ::
                && old(member[i].account == account && member[i].charId == charId)
                && (if old(member[i].leader) then broken && withdrawn == [charId] + Accounts(old(member[..])[i := NOBODY])
                    else withdrawn == [charId] && member[..] == old(member[..])[i := NOBODY])
    {
      hide IsRange, CountOnline, CountOccupied, FamilyShare, Spread;
      var i := FindMember(account, charId);
      if i == MAX_PARTY { return []; }
      withdrawn := [charId];
      if member[i].leader {
        var told := Dismiss(i);
        withdrawn := withdrawn + told;
      } else {
        RemoveMember(i, shareLevel);
      }
      var empty := CheckEmpty();
      if empty { broken := true; }
    }

    /** Tells and detaches everybody but the leader, who is detached first. */
    method Dismiss(i: nat) returns (told: seq<int>)
      requires member.Length == MAX_PARTY && i < MAX_PARTY
      modifies member
      ensures told == Accounts(old(member[..])[i := NOBODY])
      ensures forall k | 0 <= k < MAX_PARTY :: member[k].account == 0
    {
      AccountsWithout(member[..], i);
      member[i] := member[i].(account := 0);
      ghost var before := member[..];
      assert before == old(member[..])[i := old(member[i]).(account := 0)];
      EmptyCounts();
      hide Accounts;
      told := [];
      var j := 0;
      while j < MAX_PARTY
        invariant j <= MAX_PARTY && told == Accounts(before[..j])
        invariant forall k | 0 <= k < j :: member[k].account == 0
        invariant forall k | j <= k < MAX_PARTY :: member[k] == before[k]
      {
        assert before[..j + 1] == before[..j] + [before[j]];
        AccountsSnoc(before[..j], before[j]);
        if member[j].account != 0 {
          told := told + [member[j].charId];
          member[j] := member[j].(account := 0);
        }
        j := j + 1;
      }
      assert before[..j] == before;
    }

    method CheckEmpty() returns (empty: bool)
      requires member.Length == MAX_PARTY
      ensures empty <==> forall k | 0 <= k < MAX_PARTY :: member[k].account == 0
    {
      var i := 0;
      while i < MAX_PARTY && member[i].account == 0
        invariant i <= MAX_PARTY && forall k | 0 <= k < i :: member[k].account == 0
      {
        i := i + 1;
      }
      return i == MAX_PARTY;
    }

    /** `mapif_parse_PartyLeaderChange`. */
    method LeaderChange(account: int, charId: int)
      requires Valid()
      modifies member
      ensures Valid() && old(Accurate()) ==> Accurate()
      ensures forall k | 0 <= k < MAX_PARTY ::
        member[k] == old(member[k]).(leader := old(member[k].account == account && member[k].charId == charId))
    {
      ghost var before := member[..];
      var i := 0;
      while i < MAX_PARTY
        invariant i <= MAX_PARTY && Slots(member[..])
        invariant forall k | 0 <= k < i ::
          member[k] == before[k].(leader := before[k].account == account && before[k].charId == charId)
        invariant forall k | i <= k < MAX_PARTY :: member[k] == before[k]
      {
        if member[i].leader { member[i] := member[i].(leader := false); }
        if member[i].account == account && member[i].charId == charId { member[i] := member[i].(leader := true); }
        i := i + 1;
      }
      LeadersDoNotCount(before, member[..]);
    }

    /** Someone logs in or out; at a bound, or with a new level at or past one, the level is updated too. */
    method ChangeOnline(i: nat, online: bool, lv: int, shareLevel: int)
      requires Accurate() && ShareSound(shareLevel) && shareLevel >= 0 && 0 <= lv <= MAX_LV
      requires i < MAX_PARTY && member[i].online != online
      modifies this, member
      ensures Levels(member[..]) && item == old(item) && broken == old(broken)
      ensures
        var m := old(member[i]).(online := online);
        member[..] == old(member[..])[i := m] || member[..] == old(member[..])[i := m.(lv := lv)]
      ensures old(Occupied(member[i])) && lv > 0 ==>
                && Accurate() && ShareSound(shareLevel)
                && (member[i].lv == lv ||
                    (member[i].lv == old(member[i].lv) && minLv < member[i].lv < maxLv && minLv < lv < maxLv && family == 0))
    {
      hide IsRange, CountOnline, CountOccupied, FamilyShare, FamilyOf, Spread;
      ghost var before, sound := member[..], Occupied(member[i]) && lv > 0;
      SlotsAreLevels(before);
      SetOnline(i, online);
      if family != 0 || member[i].lv <= minLv || member[i].lv >= maxLv || (member[i].lv != lv && (lv <= minLv || lv >= maxLv)) {
        UpdateLevel(i, lv, shareLevel);
      } else if sound {
        RangeKept(before, i, before[i].(online := online), minLv, maxLv);
        NarrowRange(before, minLv, maxLv, shareLevel);
        NoFamily(before);
      }
    }

    /** The new level is stored and the range looked at again. */
    method UpdateLevel(i: nat, lv: int, shareLevel: int)
      requires Levels(member[..]) && 0 <= lv <= MAX_LV && i < MAX_PARTY
      modifies this`minLv, this`maxLv, this`exp, member
      ensures Levels(member[..]) && member[..] == old(member[..])[i := old(member[i]).(lv := lv)]
      ensures old(Counted() && Occupied(member[i])) && lv > 0 ==> Accurate() && ShareSound(shareLevel)
    {
      hide IsRange, CountOnline, CountOccupied, FamilyShare, FamilyOf, Spread, Levels, Slots;
      SetLevel(i, lv);
      CheckLv(shareLevel);
    }

    method SetOnline(i: nat, online: bool)
      requires Levels(member[..]) && i < MAX_PARTY && member[i].online != online
      modifies this`count, member
      ensures member[..] == old(member[..])[i := old(member[i]).(online := online)]
      ensures old(Counted() && Occupied(member[i])) ==> Counted()
    {
      hide IsRange, CountOnline, CountOccupied, FamilyShare, FamilyOf, Spread;
      ghost var before, m' := member[..], member[i].(online := online);
      CountsUpdate(before, i, m');
      CountsBound(before[i := m']);
      if Occupied(before[i]) && Slots(before) { SlotsUpdate(before, i, m'); }
      FamilySame(kin, before, i, m');
      member[i] := member[i].(online := online);
      assert member[..] == before[i := m'];
      count := if online then (count + 1) % 256 else (count + 255) % 256;
    }

    method SetLevel(i: nat, lv: int)
      requires Levels(member[..]) && 0 <= lv <= MAX_LV && i < MAX_PARTY
      modifies member
      ensures Levels(member[..]) && member[..] == old(member[..])[i := old(member[i]).(lv := lv)]
      ensures old(Counted() && Occupied(member[i])) && lv > 0 ==> Counted()
    {
      hide IsRange, CountOnline, CountOccupied, FamilyShare, FamilyOf, Spread;
      ghost var before, m' := member[..], member[i].(lv := lv);
      CountsUpdate(before, i, m');
      if Occupied(before[i]) && lv > 0 {
        if Slots(before) { SlotsUpdate(before, i, m'); }
        FamilySame(kin, before, i, m');
      }
      member[i] := member[i].(lv := lv);
      assert member[..] == before[i := m'];
    }

    method ChangeLevel(i: nat, lv: int, shareLevel: int)
      requires Levels(member[..]) && 0 <= lv <= MAX_LV && i < MAX_PARTY && member[i].lv != lv
      modifies this`minLv, this`maxLv, this`exp, member
      ensures Levels(member[..]) && member[..] == old(member[..])[i := old(member[i]).(lv := lv)]
      ensures old(Accurate() && ShareSound(shareLevel) && Occupied(member[i])) && lv > 0 ==>
        && Counted()
        && if old(member[i].lv == minLv || member[i].lv == maxLv) then Accurate() && ShareSound(shareLevel)
           else
             && minLv == old(minLv) && maxLv == old(maxLv) && exp == old(exp)
             && (Accurate() <==> (member[i].online ==> minLv <= lv <= maxLv))
             && (ShareSound(shareLevel) <==>
                   !(exp && count >= 2 && Spread(minLv, maxLv) > shareLevel && member[i].charId != family && lv < 70))
    {
      hide IsRange, CountOnline, CountOccupied, FamilyShare, FamilyOf, Spread;
      ghost var before, m' := member[..], member[i].(lv := lv);
      ghost var sound := Accurate() && ShareSound(shareLevel) && Occupied(member[i]) && lv > 0;
      var lv0 := member[i].lv;
      SetLevel(i, lv);
      if lv0 == minLv || lv0 == maxLv {
        CheckLv(shareLevel);
      } else if sound {
        if m'.online ==> minLv <= lv <= maxLv {
          RangeKept(before, i, m', minLv, maxLv);
        } else {
          OutsideRange(member[..], i, minLv, maxLv);
        }
        if FamilyShare(before, family) { FamilyLevel(before, i, lv, family); }
      }
    }

    /** The member passes outside the range without anything that would make the handler look again. */
    ghost predicate Unnoticed(m: Member, mapId: int, online: bool, lv: int)
      reads this
    {
      m.online && online && m.mapId == mapId && minLv < m.lv < maxLv && !(minLv <= lv <= maxLv)
    }

    /** A parent's level falls below 70 unnoticed, while sharing rests on the family. */
    ghost predicate FamilyLost(m: Member, mapId: int, online: bool, lv: int, shareLevel: int)
      reads this
    {
      && exp && count >= 2 && Spread(minLv, maxLv) > shareLevel && m.charId != family
      && m.online == online && m.mapId == mapId && m.lv != lv && m.lv != minLv && m.lv != maxLv && lv < 70
    }

    /** The part of the handler that runs before the map is looked at. */
    method ChangeStatus(i: nat, online: bool, lv: int, shareLevel: int)
      requires Accurate() && ShareSound(shareLevel) && shareLevel >= 0 && 0 <= lv <= MAX_LV && i < MAX_PARTY
      modifies this, member
      ensures item == old(item) && broken == old(broken)
      ensures member[..] == old(member[..])[i := old(member[i]).(online := online, lv := lv)]
      ensures
        var m := old(member[i]);
        Slot(m.(online := online, lv := lv)) ==>
          && Counted()
          && (Accurate() <==> !old(Unnoticed(member[i], member[i].mapId, online, lv)))
          && (ShareSound(shareLevel) <==> !old(FamilyLost(member[i], member[i].mapId, online, lv, shareLevel)))
    {
      hide IsRange, CountOnline, CountOccupied, FamilyShare, FamilyOf, Spread;
      InRange(member[..], i, minLv, maxLv);
      SlotsAreLevels(member[..]);
      if member[i].online != online {
        ChangeOnline(i, online, lv, shareLevel);
        NoFamily(member[..]);
      }
      if member[i].lv != lv {
        ChangeLevel(i, lv, shareLevel);
      }
    }

    /** Neither exception arises when a level rises by at most one. */
    lemma RaisedByOne(i: nat, mapId: int, online: bool, lv: int, shareLevel: int)
      requires Accurate() && ShareSound(shareLevel) && i < MAX_PARTY && Occupied(member[i])
      ensures member[i].lv <= lv <= member[i].lv + 1 ==>
                !Unnoticed(member[i], mapId, online, lv) && !FamilyLost(member[i], mapId, online, lv, shareLevel)
    {
      hide IsRange, CountOnline, CountOccupied, FamilyShare, Spread;
      if member[i].charId != family { ParentLevel(member[..], i, family); }
    }

    /** `mapif_parse_PartyChangeMap`: a member logs in or out, changes level or map.  If what the slot holds
        then is still a member, or nobody, the bounds stay accurate, and sharing sound, except in exactly the
        cases named; otherwise (account 0, or level 0) the party is no longer accurate. */
    method ChangeMap(account: int, charId: int, mapId: int, online: bool, lv: int, shareLevel: int) returns (i: nat)
      requires Accurate() && ShareSound(shareLevel) && shareLevel >= 0 && 0 <= lv <= MAX_LV
      modifies this, member
      ensures i <= MAX_PARTY && item == old(item) && broken == old(broken)
      ensures i == MAX_PARTY ==> Accurate() && ShareSound(shareLevel) && member[..] == old(member[..])
      ensures forall k | 0 <= k < i :: old(member[k].account != account || member[k].charId != charId)
      ensures i < MAX_PARTY ==>
                var m := old(member[i]);
                var m' := m.(mapId := mapId, online := online, lv := lv);
                && m.account == account && m.charId == charId && member[..] == old(member[..])[i := m']
                && (Accurate() <==> Slot(m') && !old(Unnoticed(member[i], mapId, online, lv)))
                && (Slot(m') ==> Counted() && (ShareSound(shareLevel) <==> !old(FamilyLost(member[i], mapId, online, lv, shareLevel))))
      ensures i < MAX_PARTY && account != 0 && 0 < old(member[i]).lv <= lv <= old(member[i]).lv + 1 ==>
                Accurate() && ShareSound(shareLevel)
    {
      hide IsRange, CountOnline, CountOccupied, FamilyShare, FamilyOf, Spread;
      i := FindMember(account, charId);
      if i == MAX_PARTY { return; }
      if Occupied(member[i]) { RaisedByOne(i, mapId, online, lv, shareLevel); }
      ChangeSlot(i, mapId, online, lv, shareLevel);
    }

    method ChangeSlot(i: nat, mapId: int, online: bool, lv: int, shareLevel: int)
      requires Accurate() && ShareSound(shareLevel) && shareLevel >= 0 && 0 <= lv <= MAX_LV && i < MAX_PARTY
      modifies this, member
      ensures item == old(item) && broken == old(broken)
      ensures
        var m' := old(member[i]).(mapId := mapId, online := online, lv := lv);
        && member[..] == old(member[..])[i := m']
        && (Accurate() <==> Slot(m') && !old(Unnoticed(member[i], mapId, online, lv)))
        && (Slot(m') ==> Counted() && (ShareSound(shareLevel) <==> !old(FamilyLost(member[i], mapId, online, lv, shareLevel))))
    {
      hide IsRange, CountOnline, CountOccupied, FamilyShare, FamilyOf, Spread;
      ghost var before, m' := member[..], member[i].(mapId := mapId, online := online, lv := lv);
      ChangeStatus(i, online, lv, shareLevel);
      LevelsUpdate(before, i, before[i].(online := online, lv := lv));
      if member[i].mapId != mapId {
        MoveMember(i, mapId, shareLevel);
      }
      assert member[..] == before[i := m'];
      if !Slot(m') { NoSlot(before, i, m'); }
    }

    method MoveMember(i: nat, mapId: int, shareLevel: int)
      requires Levels(member[..]) && i < MAX_PARTY
      modifies this`minLv, this`maxLv, this`exp, member
      ensures old(Counted()) ==> Accurate()
      ensures ShareSound(shareLevel)
      ensures member[..] == old(member[..])[i := old(member[i]).(mapId := mapId)]
    {
      hide IsRange, CountOnline, CountOccupied, FamilyShare, Spread;
      ghost var before, m' := member[..], member[i].(mapId := mapId);
      CountsUpdate(before, i, m');
      FamilySame(kin, before, i, m');
      member[i] := member[i].(mapId := mapId);
      assert member[..] == before[i := m'];
      CheckLv(shareLevel);
    }
  }

  lemma NoSlot(ms: Members, i: nat, m: Member)
    requires i < |ms| && !Slot(m)
    ensures !Slots(ms[i := m])
  {
    assert ms[i := m][i] == m;
  }

  /** `mapif_parse_PartyShareLevel`: a new share level, applied to every party with company online. */
  method ShareLevel(parties: seq<Party>, shareLevel: int)
    requires shareLevel >= 0 && forall j | 0 <= j < |parties| :: parties[j].Accurate()
    requires forall j, k | 0 <= j < k < |parties| :: parties[j] != parties[k]
    modifies set j | 0 <= j < |parties| :: parties[j]
    ensures forall j | 0 <= j < |parties| :: parties[j].Accurate() && parties[j].ShareSound(shareLevel)
    ensures forall j | 0 <= j < |parties| :: parties[j].exp ==> old(parties[j].exp)
  {
    hide IsRange, CountOnline, CountOccupied, FamilyShare, Spread, Slots;
    var j := 0;
    while j < |parties|
      invariant j <= |parties|
      invariant forall k | 0 <= k < |parties| :: parties[k].Accurate()
      invariant forall k | 0 <= k < j :: parties[k].ShareSound(shareLevel)
      invariant forall k | 0 <= k < |parties| :: parties[k].exp ==> old(parties[k].exp)
    {
      SlotsAreLevels(parties[j].member[..]);
      if parties[j].count > 1 { parties[j].CalcState(shareLevel); }
      j := j + 1;
    }
  }

  /** The characters of the attached slots, in order. */
  function Accounts(ms: Members): seq<int> {
    if ms == [] then [] else Accounts(ms[..|ms| - 1]) + (if ms[|ms| - 1].account != 0 then [ms[|ms| - 1].charId] else [])
  }

  /** Told are characters of attached slots only, all of them, and as many as there are such slots. */
  lemma {:induction false} AccountsMean(ms: Members)
    ensures forall k | 0 <= k < |ms| && ms[k].account != 0 :: ms[k].charId in Accounts(ms)
    ensures forall x | x in Accounts(ms) :: exists k | 0 <= k < |ms| :: ms[k].account != 0 && ms[k].charId == x
    ensures |Accounts(ms)| == |Having(ms, IsAttached())|
  {
    hide Having;
    if ms == [] {
      NobodyHas();
    } else {
      var older := ms[..|ms| - 1];
      AccountsMean(older);
      HavingLast(ms, IsAttached());
      forall k | 0 <= k < |ms| && ms[k].account != 0 ensures ms[k].charId in Accounts(ms) {
        if k < |older| { assert older[k] == ms[k]; }
      }
      forall x | x in Accounts(older) ensures exists k | 0 <= k < |ms| :: ms[k].account != 0 && ms[k].charId == x {
        var k :| 0 <= k < |older| && older[k].account != 0 && older[k].charId == x;
        assert ms[k] == older[k];
      }
    }
  }

  lemma {:induction false} LeadersDoNotCount(ms: Members, ms': Members)
    requires |ms| == |ms'| && forall k | 0 <= k < |ms| :: ms'[k] == ms[k].(leader := ms'[k].leader)
    ensures CountOnline(ms) == CountOnline(ms') && CountOccupied(ms) == CountOccupied(ms')
    ensures forall lo, hi :: IsRange(ms, lo, hi) ==> IsRange(ms', lo, hi)
  {
    if ms != [] { LeadersDoNotCount(ms[..|ms| - 1], ms'[..|ms| - 1]); }
    forall lo, hi | IsRange(ms, lo, hi) ensures IsRange(ms', lo, hi) { SameRange(ms, ms', lo, hi); }
  }

  lemma SameRange(ms: Members, ms': Members, lo: int, hi: int)
    requires |ms| == |ms'| && forall k | 0 <= k < |ms| :: ms'[k] == ms[k].(leader := ms'[k].leader)
    requires IsRange(ms, lo, hi)
    ensures IsRange(ms', lo, hi)
  {
    if exists k | 0 <= k < |ms| :: ms[k].online {
      var a :| 0 <= a < |ms| && ms[a].online && ms[a].lv == lo;
      var b :| 0 <= b < |ms| && ms[b].online && ms[b].lv == hi;
      assert ms'[a].online && ms'[a].lv == lo && ms'[b].online && ms'[b].lv == hi;
    }
  }

  lemma InRange(ms: Members, i: nat, lo: int, hi: int)
    requires i < |ms| && IsRange(ms, lo, hi)
    ensures ms[i].online ==> lo <= ms[i].lv <= hi
  {}

  lemma ParentLevel(ms: Members, i: nat, child: int)
    requires i < |ms| && ms[i].lv != 0 && ms[i].charId != child
    ensures FamilyShare(ms, child) ==> ms[i].lv >= 70
  {}

  lemma OutsideRange(ms: Members, i: nat, lo: int, hi: int)
    requires i < |ms| && ms[i].online && !(lo <= ms[i].lv <= hi)
    ensures !IsRange(ms, lo, hi)
  {}

  lemma {:induction false} ChildMapLevel(ms: Members, i: nat, lv: int, child: int)
    requires i < |ms|
    ensures ChildMap(ms[i := ms[i].(lv := lv)], child) == ChildMap(ms, child)
  {
    var ms' := ms[i := ms[i].(lv := lv)];
    if i == 0 {
      assert ms'[1..] == ms[1..];
    } else {
      assert ms'[1..] == ms[1..][i - 1 := ms[1..][i - 1].(lv := lv)];
      ChildMapLevel(ms[1..], i - 1, lv, child);
    }
  }

  /** A family goes on sharing exactly while the parent whose level changed stays at 70 or above. */
  lemma FamilyLevel(ms: Members, i: nat, lv: int, child: int)
    requires i < |ms| && FamilyShare(ms, child) && ms[i].lv != 0 && lv != 0
    ensures FamilyShare(ms[i := ms[i].(lv := lv)], child) <==> ms[i].charId == child || lv >= 70
  {
    ChildMapLevel(ms, i, lv, child);
    var ms' := ms[i := ms[i].(lv := lv)];
    assert ms'[i].lv == lv;
  }

  lemma NoFamily(ms: Members)
    ensures !FamilyShare(ms, 0)
  {}

  function FamilyOf(kin: Kinship, ms: Members): int
    requires |ms| == MAX_PARTY
  {
    var size := CountOccupied(ms);
    var a, b, c := ms[0].charId, ms[1].charId, ms[2].charId;
    if size == 2 && (kin.isChild(a, b) || kin.isChild(b, a)) then if ms[0].jobClass & 0x2000 != 0 then a else b
    else if size == 3 then kin.childOf(a, b, c)
    else 0
  }

  lemma FamilySame(kin: Kinship, ms: Members, i: nat, m: Member)
    requires |ms| == MAX_PARTY && i < MAX_PARTY
    requires m.charId == ms[i].charId && m.jobClass == ms[i].jobClass && (m.lv != 0 <==> ms[i].lv != 0)
    ensures FamilyOf(kin, ms[i := m]) == FamilyOf(kin, ms)
  {
    CountsUpdate(ms, i, m);
    hide CountOccupied;
  }

  lemma SlotsAreLevels(ms: Members)
    requires Slots(ms)
    ensures Levels(ms) && OnlineLevels(ms)
  {}

  lemma LevelsUpdate(ms: Members, i: nat, m: Member)
    requires Slots(ms) && i < |ms| && 0 <= m.lv <= MAX_LV
    ensures Levels(ms[i := m])
  {}

  lemma SlotsUpdate(ms: Members, i: nat, m: Member)
    requires Slots(ms) && i < |ms| && Slot(m)
    ensures Slots(ms[i := m])
  {}

  lemma {:induction false} FullCount(ms: Members)
    requires forall k | 0 <= k < |ms| :: Occupied(ms[k])
    ensures CountOccupied(ms) == |ms|
  {
    if ms != [] { FullCount(ms[..|ms| - 1]); }
  }

  lemma OnlyOne(ms: Members)
    requires |ms| == MAX_PARTY && ms[0].online && forall i | 0 < i < MAX_PARTY :: ms[i] == NOBODY
    ensures CountOnline(ms) == 1
  {
    CountsUpdate(ms, 0, NOBODY);
    NoneOnline(ms[0 := NOBODY]);
  }

  /** With at most one member online a proper range is a single level. */
  lemma NarrowRange(ms: Members, lo: int, hi: int, shareLevel: int)
    requires IsRange(ms, lo, hi) && lo <= hi && shareLevel >= 0
    ensures CountOnline(ms) < 2 ==> Spread(lo, hi) <= shareLevel
  {
    var i :| 0 <= i < |ms| && ms[i].online;
    CountsUpdate(ms, i, NOBODY);
    if CountOnline(ms) == 1 { AloneRange(ms, lo, hi); }
  }

  lemma EmptyCounts()
    ensures CountOnline([]) == 0 && CountOccupied([]) == 0 && Accounts([]) == []
  {}

  lemma AccountsSnoc(ms: Members, m: Member)
    ensures Accounts(ms + [m]) == Accounts(ms) + (if m.account != 0 then [m.charId] else [])
  {
    assert (ms + [m])[..|ms|] == ms;
  }

  lemma {:induction false} AccountsWithout(ms: Members, i: nat)
    requires i < |ms|
    ensures Accounts(ms[i := ms[i].(account := 0)]) == Accounts(ms[i := NOBODY])
  {
    var n := |ms| - 1;
    var a, b := ms[i := ms[i].(account := 0)], ms[i := NOBODY];
    if i == n {
      assert a[..n] == b[..n];
    } else {
      AccountsWithout(ms[..n], i);
      assert a[..n] == ms[..n][i := ms[i].(account := 0)] && b[..n] == ms[..n][i := NOBODY];
    }
  }

  lemma CountsSnoc(ms: Members, m: Member)
    ensures CountOnline(ms + [m]) == CountOnline(ms) + (if m.online then 1 else 0)
    ensures CountOccupied(ms + [m]) == CountOccupied(ms) + (if m.lv != 0 then 1 else 0)
  {
    assert (ms + [m])[..|ms|] == ms;
  }

  lemma RangeSnoc(ms: Members, m: Member, lo: int, hi: int)
    requires IsRange(ms, lo, hi) && 0 <= m.lv <= MAX_LV
    ensures
      if m.online then IsRange(ms + [m], if m.lv < lo then m.lv else lo, if m.lv > hi then m.lv else hi)
      else IsRange(ms + [m], lo, hi)
  {
    var ms' := ms + [m];
    if exists k | 0 <= k < |ms| :: ms[k].online {
      var a :| 0 <= a < |ms| && ms[a].online && ms[a].lv == lo;
      var b :| 0 <= b < |ms| && ms[b].online && ms[b].lv == hi;
      assert ms'[a] == ms[a] && ms'[b] == ms[b];
    }
    assert ms'[|ms|] == m;
  }

  // ----- what goes unnoticed

  /** Three members and unused slots. */
  function Three(a: Member, b: Member, c: Member): (ms: Members)
    ensures |ms| == MAX_PARTY && ms[0] == a && ms[1] == b && ms[2] == c
    ensures forall i | 3 <= i < MAX_PARTY :: ms[i] == NOBODY
  {
    [a, b, c] + seq(MAX_PARTY - 3, i => NOBODY)
  }

  lemma CountThree(a: Member, b: Member, c: Member)
    requires a.lv != 0 && b.lv != 0 && c.lv != 0 && a.online && b.online && c.online
    ensures CountOccupied(Three(a, b, c)) == 3 && CountOnline(Three(a, b, c)) == 3
  {
    var ms := Three(a, b, c);
    var none := seq(MAX_PARTY, i => NOBODY);
    CountNobody(none);
    CountsUpdate(none, 0, a);
    CountsUpdate(none[0 := a], 1, b);
    CountsUpdate(none[0 := a][1 := b], 2, c);
    assert none[0 := a][1 := b][2 := c] == ms;
  }

  lemma {:induction false} CountNobody(ms: Members)
    requires forall i | 0 <= i < |ms| :: ms[i] == NOBODY
    ensures CountOccupied(ms) == 0 && CountOnline(ms) == 0
  {
    if ms != [] { CountNobody(ms[..|ms| - 1]); }
  }

  lemma RangeThree(a: Member, b: Member, c: Member, lo: int, hi: int)
    requires a.online && b.online && c.online && a.lv < b.lv < c.lv && IsRange(Three(a, b, c), lo, hi)
    ensures lo == a.lv && hi == c.lv
  {
    var ms := Three(a, b, c);
    assert ms[0].online && ms[2].online && ms[0].lv == a.lv && ms[2].lv == c.lv;
    RangeIsUnique(ms, lo, hi, a.lv, c.lv);
  }

  /** Of three members at levels 10, 20 and 30 the middle one jumps to 40, and the bounds 10 and 30 stay. */
  method JumpGoesUnnoticed() returns (p: Party)
    ensures fresh(p) && p.Counted() && !p.Accurate()
  {
    hide IsRange, CountOnline, CountOccupied, FamilyShare, FamilyOf, Spread, Three;
    var a, b, c := Member(1, 1, 0, 0, 10, true, true), Member(2, 2, 0, 0, 20, false, true), Member(3, 3, 0, 0, 30, false, true);
    p := new Party.FromSql(Three(a, b, c), Kinship((x, y) => false, (x, y, z) => 0), false, 0, 15);
    RangeThree(a, b, c, p.minLv, p.maxLv);
    var i := p.ChangeMap(2, 2, 0, true, 40, 15);
  }

  /** A child of level 10 shares with parents of level 80 and 150; the first parent falls to level 60, and
      even sharing stays on although nothing allows it. */
  method FamilyIsLost() returns (p: Party)
    ensures fresh(p) && p.Accurate() && !p.ShareSound(15)
  {
    hide IsRange, CountOnline, CountOccupied, Three;
    var a, b, c := Member(1, 1, 0, 0, 10, true, true), Member(2, 2, 0, 0, 80, false, true), Member(3, 3, 0, 0, 150, false, true);
    CountThree(a, b, c);
    p := new Party.FromSql(Three(a, b, c), Kinship((x, y) => false, (x, y, z) => 1), true, 0, 15);
    RangeThree(a, b, c, p.minLv, p.maxLv);
    assert p.member[..][0] == a;
    assert ChildMap(p.member[..], 1) == 0;
    assert p.MayShare(15);
    var i := p.ChangeMap(2, 2, 0, true, 60, 15);
  }

  /** An unused slot is asked to leave, and the party counts one member too few. */
  method NobodyLeaves() returns (p: Party)
    ensures fresh(p) && !p.broken && !p.Accurate()
  {
    hide IsRange, CountOnline, CountOccupied, FamilyShare, FamilyOf, Three;
    var a, b, c := Member(1, 1, 0, 0, 10, true, true), Member(2, 2, 0, 0, 20, false, true), Member(3, 3, 0, 0, 30, false, true);
    p := new Party.FromSql(Three(a, b, c), Kinship((x, y) => false, (x, y, z) => 0), false, 0, 15);
    assert p.member[..][0] == a && p.member[..][1] == b && p.member[..][2] == c && p.member[..][3] == NOBODY;
    var withdrawn := p.Leave(0, 0, 15);
    assert withdrawn != [];
    assert p.member[..][0] == a;
  }
}
