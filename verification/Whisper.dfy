/** Whispers between map-servers: every server is asked, the first decisive answer or the last one
    goes back to the sender, and what was never answered is forgotten after a time. */
module Whisper {
  import opened Options

  const WISDATA_TTL := 60 * 1000
  const WISDELLIST_MAX := 256

  /** 0 delivered, 1 the target is not here, 2 the target ignores the sender. */
  const NOT_HERE := 1

  /** A whisper under way, with the number of servers still to answer. */
  datatype Pending = Pending(fd: int, src: string, count: int, tick: int)

  type Table = map<nat, Pending>

  /** What a sender is told; `id` 0 when no server was asked. */
  datatype Answer = Answer(id: nat, fd: int, src: string, flag: int)

  /** `DIFF_TICK`: the difference of two clock readings as a signed 32-bit number. */
  function DiffTick(a: int, b: int): int {
    var d := (a - b) % 0x1_0000_0000;
    if d < 0x8000_0000 then d else d - 0x1_0000_0000
  }

  predicate Expired(now: int, w: Pending) { DiffTick(now, w.tick) > WISDATA_TTL }

  /** Clock readings wrap around at 2^32; as long as they are less than 2^31 ms apart a whisper expires
      after more than a minute. */
  lemma ExpiredAfterAMinute(sent: int, now: int, w: Pending)
    requires -0x8000_0000 <= now - sent < 0x8000_0000 && w.tick == sent % 0x1_0000_0000
    ensures Expired(now % 0x1_0000_0000, w) <==> now - sent > 60000
  {}

  function Unexpired(db: Table, now: int): Table {
    map id | id in db && !Expired(now, db[id]) :: db[id]
  }

  datatype State = State(db: Table, lastId: nat, log: seq<Answer>)

  /** `Ask` reads the clock twice: for the purge, and for the new whisper; it is passed on to `servers` servers. */
  datatype Event =
    | Ask(purgeTick: int, tick: int, fd: int, src: string, servers: nat)
    | Reply(id: nat, server: nat, flag: int)

  function Step(s: State, e: Event): State {
    match e
    case Ask(purgeTick, tick, fd, src, servers) =>
      s.(db := Unexpired(s.db, purgeTick)[s.lastId + 1 := Pending(fd, src, servers, tick)], lastId := s.lastId + 1)
    case Reply(id, _, flag) =>
      if id !in s.db then s
      else
        var w := s.db[id];
        if w.count - 1 <= 0 || flag != NOT_HERE then
          s.(db := s.db - {id}, log := s.log + [Answer(id, w.fd, w.src, flag)])
        else s.(db := s.db[id := w.(count := w.count - 1)])
  }

  function Run(s: State, es: seq<Event>): State {
    if es == [] then s else Step(Run(s, es[..|es| - 1]), es[|es| - 1])
  }

  // ----- what each whisper is answered

  function AnswersTo(log: seq<Answer>, id: nat): seq<Answer> {
    if log == [] then []
    else AnswersTo(log[..|log| - 1], id) + (if log[|log| - 1].id == id then [log[|log| - 1]] else [])
  }

  /** Some request found the whisper expired. */
  predicate Forgotten(es: seq<Event>, w: Pending) {
    exists i | 0 <= i < |es| :: es[i].Ask? && Expired(es[i].purgeTick, w)
  }

  /** The replies to whisper `id` before it would be forgotten, in order. */
  function Heard(es: seq<Event>, id: nat, w: Pending): seq<Event> {
    if es == [] then []
    else
      var older, e := es[..|es| - 1], es[|es| - 1];
      Heard(older, id, w) + (if e.Reply? && e.id == id && !Forgotten(older, w) then [e] else [])
  }

  /** The reply that settles the matter is the first with another flag than "not here", or else the
      last one expected; past the end if there is none. */
  function SettledAt(replies: seq<Event>, count: int): (k: nat)
    requires forall i | 0 <= i < |replies| :: replies[i].Reply?
    ensures k <= |replies|
  {
    if replies == [] then 0
    else
      var n := |replies| - 1;
      var k := SettledAt(replies[..n], count);
      if k < n then k else if replies[n].flag != NOT_HERE || n + 1 >= count then n else n + 1
  }

  lemma {:induction false} SettledFirst(replies: seq<Event>, count: int)
    requires forall i | 0 <= i < |replies| :: replies[i].Reply?
    ensures
      var k := SettledAt(replies, count);
      && (k < |replies| ==> replies[k].flag != NOT_HERE || k + 1 >= count)
      && forall i | 0 <= i < k :: replies[i].flag == NOT_HERE && i + 1 < count
  {
    if replies != [] {
      var n := |replies| - 1;
      SettledFirst(replies[..n], count);
      forall i | 0 <= i < n ensures replies[i] == replies[..n][i] {}
    }
  }

  lemma {:induction false} HeardReplies(es: seq<Event>, id: nat, w: Pending)
    ensures forall i | 0 <= i < |Heard(es, id, w)| :: Heard(es, id, w)[i].Reply? && Heard(es, id, w)[i].id == id
  {
    if es != [] { HeardReplies(es[..|es| - 1], id, w); }
  }

  /** The state of one whisper after a run: settled and answered once, forgotten without an answer,
      or still waiting for the servers that have not replied. */
  ghost predicate Follows(s: State, w: Pending, id: nat, before: seq<Answer>, es: seq<Event>) {
    HeardReplies(es, id, w);
    var replies := Heard(es, id, w);
    var k := SettledAt(replies, w.count);
    if k < |replies| then
      id !in s.db && AnswersTo(s.log, id) == before + [Answer(id, w.fd, w.src, replies[k].flag)]
    else
      && AnswersTo(s.log, id) == before
      && if Forgotten(es, w) then id !in s.db else id in s.db && s.db[id] == w.(count := w.count - |replies|)
  }

  lemma ForgottenSnoc(es: seq<Event>, e: Event, w: Pending)
    ensures Forgotten(es + [e], w) <==> Forgotten(es, w) || (e.Ask? && Expired(e.purgeTick, w))
  {
    hide Expired;
    assert (es + [e])[|es|] == e;
    if Forgotten(es, w) {
      var i :| 0 <= i < |es| && es[i].Ask? && Expired(es[i].purgeTick, w);
      assert (es + [e])[i] == es[i];
    }
  }

  lemma HeardSnoc(es: seq<Event>, e: Event, id: nat, w: Pending)
    ensures Heard(es + [e], id, w) ==
            if e.Reply? && e.id == id && !Forgotten(es, w) then Heard(es, id, w) + [e] else Heard(es, id, w)
  {
    assert (es + [e])[..|es|] == es;
  }

  lemma AnswersSnoc(log: seq<Answer>, a: Answer, id: nat)
    ensures AnswersTo(log + [a], id) == if a.id == id then AnswersTo(log, id) + [a] else AnswersTo(log, id)
  {
    assert (log + [a])[..|log|] == log;
  }

  lemma SettledSnoc(replies: seq<Event>, e: Event, count: int)
    requires (forall i | 0 <= i < |replies| :: replies[i].Reply?) && e.Reply?
    ensures
      var n, k := |replies|, SettledAt(replies, count);
      SettledAt(replies + [e], count) == if k < n then k else if e.flag != NOT_HERE || n + 1 >= count then n else n + 1
  {
    assert (replies + [e])[..|replies|] == replies;
  }

  /** One more event keeps a whisper on its course. */
  lemma FollowsStep(s: State, w: Pending, id: nat, before: seq<Answer>, es: seq<Event>, e: Event)
    requires Follows(s, w, id, before, es) && id <= s.lastId
    ensures Follows(Step(s, e), w, id, before, es + [e]) && id <= Step(s, e).lastId
  {
    hide Forgotten, Heard, AnswersTo, Expired, SettledAt;
    HeardReplies(es, id, w);
    HeardReplies(es + [e], id, w);
    ForgottenSnoc(es, e, w);
    HeardSnoc(es, e, id, w);
    var replies := Heard(es, id, w);
    if e.Reply? {
      if e.id == id { SettledSnoc(replies, e, w.count); }
      if e.id in s.db {
        AnswersSnoc(s.log, Answer(e.id, s.db[e.id].fd, s.db[e.id].src, e.flag), id);
      }
    } else {
      ExpiryIgnoresCount(e.purgeTick, w, w.count - |replies|);
    }
  }

  lemma ExpiryIgnoresCount(now: int, w: Pending, count: int)
    ensures Expired(now, w.(count := count)) == Expired(now, w)
  {}

  /** Every run of questions and replies answers each whisper at most once, with the flag that settled it. */
  lemma {:induction false} WhisperIsAnswered(s: State, id: nat, es: seq<Event>)
    requires id in s.db && id <= s.lastId
    ensures Follows(Run(s, es), s.db[id], id, AnswersTo(s.log, id), es) && id <= Run(s, es).lastId
  {
    hide Step, Follows;
    if es == [] {
      FollowsStart(s, id);
    } else {
      var older, e := es[..|es| - 1], es[|es| - 1];
      WhisperIsAnswered(s, id, older);
      FollowsStep(Run(s, older), s.db[id], id, AnswersTo(s.log, id), older, e);
      assert older + [e] == es;
    }
  }

  lemma FollowsStart(s: State, id: nat)
    requires id in s.db
    ensures Follows(s, s.db[id], id, AnswersTo(s.log, id), [])
  {}

  lemma {:induction false} NoAnswersYet(log: seq<Answer>, id: nat)
    requires forall i | 0 <= i < |log| :: log[i].id < id
    ensures AnswersTo(log, id) == []
  {
    if log != [] { NoAnswersYet(log[..|log| - 1], id); }
  }

  /** From the question on, whatever happens, there is at most one answer. */
  lemma AnsweredAtMostOnce(s: State, e: Event, es: seq<Event>)
    requires e.Ask? && forall i | 0 <= i < |s.log| :: s.log[i].id <= s.lastId
    ensures
      var answers := AnswersTo(Run(Step(s, e), es).log, s.lastId + 1);
      |answers| <= 1 && (answers != [] ==> answers[0].fd == e.fd && answers[0].src == e.src)
  {
    var asked, id := Step(s, e), s.lastId + 1;
    NoAnswersYet(asked.log, id);
    WhisperIsAnswered(asked, id, es);
  }

  /** A whisper is told "not here" only after as many replies as servers were asked, all saying so. */
  lemma NotHereFromAll(replies: seq<Event>, count: int)
    requires (forall i | 0 <= i < |replies| :: replies[i].Reply?) && count > 0
    requires SettledAt(replies, count) < |replies| && replies[SettledAt(replies, count)].flag == NOT_HERE
    ensures SettledAt(replies, count) == count - 1 && forall i | 0 <= i < count :: replies[i].flag == NOT_HERE
  {
    SettledFirst(replies, count);
    hide SettledAt;
  }

  /** If no server replies twice, then each of the servers asked has said "not here". */
  lemma EveryServerSaidSo(replies: seq<Event>, count: nat, server: nat)
    requires forall i | 0 <= i < |replies| :: replies[i].Reply? && replies[i].server < count
    requires forall i, j | 0 <= i < j < |replies| :: replies[i].server != replies[j].server
    requires count > 0 && SettledAt(replies, count) < |replies| && replies[SettledAt(replies, count)].flag == NOT_HERE
    requires server < count
    ensures exists i | 0 <= i < |replies| :: replies[i].server == server && replies[i].flag == NOT_HERE
  {
    NotHereFromAll(replies, count);
    hide SettledAt;
    var first := replies[..count];
    var i := CoversAll(first, count, server);
    assert replies[i] == first[i];
  }

  // ----- over every run

  /** Each of so many servers replies at most once to whisper `id`. */
  predicate OnceEach(es: seq<Event>, id: nat, servers: nat) {
    && (forall i | 0 <= i < |es| && es[i].Reply? && es[i].id == id :: es[i].server < servers)
    && (forall i, j | 0 <= i < j < |es| && es[i].Reply? && es[j].Reply? && es[i].id == id && es[j].id == id ::
          es[i].server != es[j].server)
  }

  /** Every reply heard was made, and none twice. */
  ghost predicate Made(replies: seq<Event>, es: seq<Event>, id: nat, servers: nat) {
    && (forall k | 0 <= k < |replies| :: replies[k] in es && replies[k].Reply? && replies[k].id == id && replies[k].server < servers)
    && (forall k, m | 0 <= k < m < |replies| :: replies[k].server != replies[m].server)
  }

  lemma {:induction false} HeardOnce(es: seq<Event>, id: nat, w: Pending, servers: nat)
    requires OnceEach(es, id, servers)
    ensures Made(Heard(es, id, w), es, id, servers)
  {
    if es == [] {
      assert Heard(es, id, w) == [];
    } else {
      var older, e := es[..|es| - 1], es[|es| - 1];
      assert older + [e] == es;
      HeardSnoc(older, e, id, w);
      hide Forgotten, Heard;
      HeardOnce(older, id, w, servers);
      OneMoreMade(Heard(older, id, w), older, e, id, servers);
    }
  }

  lemma OneMoreMade(replies: seq<Event>, older: seq<Event>, e: Event, id: nat, servers: nat)
    requires Made(replies, older, id, servers) && OnceEach(older + [e], id, servers)
    ensures Made(replies, older + [e], id, servers)
    ensures e.Reply? && e.id == id ==> Made(replies + [e], older + [e], id, servers)
  {
    var es := older + [e];
    assert es[|older|] == e;
    forall k | 0 <= k < |replies|
      ensures replies[k] in es && (e.Reply? && e.id == id ==> replies[k].server != e.server)
    {
      var i :| 0 <= i < |older| && older[i] == replies[k];
      assert es[i] == older[i];
    }
  }

  /** Until the whisper is forgotten every reply to it is heard. */
  lemma {:induction false} AllHeard(es: seq<Event>, id: nat, w: Pending)
    requires !Forgotten(es, w)
    ensures forall i | 0 <= i < |es| && es[i].Reply? && es[i].id == id :: es[i] in Heard(es, id, w)
  {
    if es != [] {
      var older, e := es[..|es| - 1], es[|es| - 1];
      assert older + [e] == es;
      ForgottenSnoc(older, e, w);
      HeardSnoc(older, e, id, w);
      AllHeard(older, id, w);
    }
  }

  predicate AllNotHere(replies: seq<Event>) {
    forall m | 0 <= m < |replies| :: replies[m].Reply? && replies[m].flag == 1
  }

  /** No reply to the whisper before event `i` says anything else than "not here". */
  predicate NothingElse(es: seq<Event>, id: nat, i: nat)
    requires i <= |es|
  {
    forall j | 0 <= j < i && es[j].Reply? && es[j].id == id :: es[j].flag == 1
  }

  /** The first reply heard with another flag than "not here" is the first one made. */
  lemma {:induction false} FirstOther(es: seq<Event>, id: nat, w: Pending, k: nat) returns (i: nat)
    requires k < |Heard(es, id, w)| && AllNotHere(Heard(es, id, w)[..k])
    ensures i < |es| && es[i] == Heard(es, id, w)[k] && NothingElse(es, id, i)
  {
    assert es != [];
    var older, e := es[..|es| - 1], es[|es| - 1];
    assert older + [e] == es;
    HeardSnoc(older, e, id, w);
    hide Heard, Forgotten, AllNotHere;
    var before := Heard(older, id, w);
    if k < |before| {
      assert Heard(es, id, w)[..k] == before[..k];
      i := FirstOther(older, id, w, k);
    } else {
      assert Heard(es, id, w)[..k] == before;
      NobodyElse(older, id, w);
      i := |es| - 1;
      assert NothingElse(older, id, i);
    }
  }

  lemma NobodyElse(es: seq<Event>, id: nat, w: Pending)
    requires AllNotHere(Heard(es, id, w)) && !Forgotten(es, w)
    ensures NothingElse(es, id, |es|)
  {
    AllHeard(es, id, w);
    hide Heard, Forgotten;
  }

  /** What a whisper should be answered: "not here" if every server says so, else the first reply that
      says anything else. */
  ghost predicate RightAnswer(flag: int, es: seq<Event>, id: nat, servers: nat) {
    if flag == 1 then forall server: nat | server < servers :: Event.Reply(id, server, 1) in es
    else exists i | 0 <= i < |es| :: es[i].Reply? && es[i].id == id && es[i].flag == flag && NothingElse(es, id, i)
  }

  /** Whatever happens after a whisper was passed on, if it is answered, the answer is right. */
  lemma AnswerIsRight(s: State, e: Event, es: seq<Event>)
    requires e.Ask? && forall i | 0 <= i < |s.log| :: s.log[i].id <= s.lastId
    requires OnceEach(es, s.lastId + 1, e.servers)
    ensures
      var answers := AnswersTo(Run(Step(s, e), es).log, s.lastId + 1);
      answers != [] ==> RightAnswer(answers[0].flag, es, s.lastId + 1, e.servers)
  {
    var asked, id := Step(s, e), s.lastId + 1;
    var w := asked.db[id];
    NoAnswersYet(asked.log, id);
    WhisperIsAnswered(asked, id, es);
    hide Run, Heard, AnswersTo, Forgotten, SettledAt, OnceEach, RightAnswer;
    if AnswersTo(Run(asked, es).log, id) != [] {
      HeardReplies(es, id, w);
      RightReply(es, id, w, e.servers, SettledAt(Heard(es, id, w), e.servers));
    }
  }

  /** The reply that settles a whisper is the right answer. */
  lemma RightReply(es: seq<Event>, id: nat, w: Pending, servers: nat, k: nat)
    requires OnceEach(es, id, servers)
    requires forall i | 0 <= i < |Heard(es, id, w)| :: Heard(es, id, w)[i].Reply?
    requires k == SettledAt(Heard(es, id, w), servers) && k < |Heard(es, id, w)|
    ensures RightAnswer(Heard(es, id, w)[k].flag, es, id, servers)
  {
    var replies := Heard(es, id, w);
    HeardOnce(es, id, w, servers);
    SettledFirst(replies, servers);
    hide Heard, Forgotten, SettledAt, OnceEach;
    if replies[k].flag == NOT_HERE {
      assert servers > 0 by { assert replies[k].server < servers; }
      forall server: nat | server < servers ensures Event.Reply(id, server, NOT_HERE) in es {
        EveryServerSaidSo(replies, servers, server);
        var i :| 0 <= i < |replies| && replies[i].server == server && replies[i].flag == NOT_HERE;
        assert replies[i] == Event.Reply(id, server, NOT_HERE);
      }
    } else {
      assert AllNotHere(replies[..k]);
      var i := FirstOther(es, id, w, k);
    }
  }

  /** As many different servers as there are leave none out. */
  lemma CoversAll(replies: seq<Event>, count: nat, server: nat) returns (i: nat)
    requires |replies| == count && server < count
    requires forall i | 0 <= i < |replies| :: replies[i].Reply? && replies[i].server < count
    requires forall i, j | 0 <= i < j < |replies| :: replies[i].server != replies[j].server
    ensures i < |replies| && replies[i].server == server
  {
    if forall k | 0 <= k < |replies| :: replies[k].server != server {
      var heard := set k | 0 <= k < |replies| :: replies[k].server;
      DistinctServers(replies);
      var others := Below(count) - {server};
      assert heard <= others;
      SubsetSize(heard, others);
      assert false;
    }
    i :| 0 <= i < |replies| && replies[i].server == server;
  }

  lemma {:induction false} DistinctServers(replies: seq<Event>)
    requires forall i | 0 <= i < |replies| :: replies[i].Reply?
    requires forall i, j | 0 <= i < j < |replies| :: replies[i].server != replies[j].server
    ensures |set k | 0 <= k < |replies| :: replies[k].server| == |replies|
  {
    if replies != [] {
      var n := |replies| - 1;
      DistinctServers(replies[..n]);
      var older, all := set k | 0 <= k < n :: replies[..n][k].server, set k | 0 <= k < |replies| :: replies[k].server;
      assert all == older + {replies[n].server} by {
        forall k | 0 <= k < n ensures replies[k].server in older { assert replies[..n][k] == replies[k]; }
      }
      assert replies[n].server !in older;
    }
  }

  function Below(n: nat): (s: set<nat>)
    ensures |s| == n && forall k: nat :: k in s <==> k < n
  {
    if n == 0 then {} else Below(n - 1) + {n - 1}
  }

  lemma {:induction false} SubsetSize(a: set<nat>, b: set<nat>)
    requires a <= b
    ensures |a| <= |b|
  {
    if a != {} {
      var x :| x in a;
      SubsetSize(a - {x}, b - {x});
    }
  }

  // ----- the server's own steps

  function Without(db: Table, ids: seq<nat>): Table {
    map id | id in db && id !in ids :: db[id]
  }

  lemma WithoutNone(db: Table, ids: seq<nat>)
    requires ids == []
    ensures Without(db, ids) == db
  {}

  lemma FewerLeft(db: Table, ids: seq<nat>)
    requires ids != [] && ids[0] in db
    ensures |Without(db, ids)| < |db|
  {
    SubsetSize(Without(db, ids).Keys, db.Keys - {ids[0]});
  }

  /** The list holds expired whispers only, each once. */
  predicate Doomed(db: Table, now: int, ids: seq<nat>) {
    forall k | 0 <= k < |ids| :: ids[k] in db && Expired(now, db[ids[k]])
  }

  lemma WithoutDoomed(db: Table, now: int, ids: seq<nat>)
    requires Doomed(db, now, ids)
    ensures Unexpired(Without(db, ids), now) == Unexpired(db, now)
    ensures (forall id | id in db && Expired(now, db[id]) :: id in ids) ==> Without(db, ids) == Unexpired(db, now)
  {
    hide Expired;
  }

  class WhisperServer {
    var db: Table
    var lastId: nat
    var log: seq<Answer>

    function View(): State
      reads this
    {
      State(db, lastId, log)
    }

    /** `check_ttl_wisdata`: expired whispers are collected into a bounded list and removed, again as
        long as the list came out full. */
    method Purge(now: int)
      modifies this`db
      ensures db == Unexpired(old(db), now)
    {
      hide Unexpired, Expired, Without;
      var full := true;
      while full
        invariant Unexpired(db, now) == Unexpired(old(db), now)
        invariant !full ==> db == Unexpired(db, now)
        decreases |db|, full
      {
        var dellist := new nat[WISDELLIST_MAX];
        var n := Collect(now, dellist);
        WithoutDoomed(db, now, dellist[..n]);
        if n > 0 { FewerLeft(db, dellist[..n]); } else { WithoutNone(db, dellist[..n]); }
        RemoveListed(dellist, n);
        full := n >= WISDELLIST_MAX;
      }
    }

    method RemoveListed(dellist: array<nat>, n: nat)
      requires n <= dellist.Length
      modifies this`db
      ensures db == Without(old(db), dellist[..n])
    {
      var i := 0;
      while i < n
        invariant i <= n && db == Without(old(db), dellist[..i])
      {
        db := db - {dellist[i]};
        assert dellist[..i + 1] == dellist[..i] + [dellist[i]];
        i := i + 1;
      }
    }

    /** `check_ttl_wisdata_sub` for every whisper, in any order. */
    method Collect(now: int, dellist: array<nat>) returns (n: nat)
      requires dellist.Length == WISDELLIST_MAX
      modifies dellist
      ensures n <= WISDELLIST_MAX && Doomed(db, now, dellist[..n])
      ensures n < WISDELLIST_MAX ==> forall id | id in db && Expired(now, db[id]) :: id in dellist[..n]
    {
      hide Expired;
      n := 0;
      var left := db.Keys;
      while left != {}
        invariant left <= db.Keys && n <= WISDELLIST_MAX && Doomed(db, now, dellist[..n])
        invariant n < WISDELLIST_MAX ==> forall id | id in db && id !in left && Expired(now, db[id]) :: id in dellist[..n]
        decreases |left|
      {
        var id :| id in left;
        left := left - {id};
        if Expired(now, db[id]) && n < WISDELLIST_MAX {
          ghost var listed := dellist[..n];
          dellist[n] := id;
          n := n + 1;
          assert dellist[..n] == listed + [id];
        }
      }
    }

    /** `mapif_parse_WisRequest`.  `found` is the target's name as the database spells it, if it exists;
        `servers` is how many map-servers the whisper is passed on to. */
    method Request(fd: int, src: string, found: Option<string>, purgeTick: int, tick: int, servers: nat)
      modifies this
      ensures
        if found.None? || found.value == src then
          db == old(db) && lastId == old(lastId) && log == old(log) + [Answer(0, fd, src, NOT_HERE)]
        else View() == Step(old(View()), Ask(purgeTick, tick, fd, src, servers))
    {
      hide Unexpired;
      if found.None? || found.value == src {
        log := log + [Answer(0, fd, src, NOT_HERE)];
      } else {
        Purge(purgeTick);
        lastId := lastId + 1;
        db := db[lastId := Pending(fd, src, 0, tick)];
        db := db[lastId := db[lastId].(count := servers)];
      }
    }

    /** `mapif_parse_WisReply`. */
    method Reply(id: nat, server: nat, flag: int)
      modifies this
      ensures View() == Step(old(View()), Event.Reply(id, server, flag))
    {
      if id in db {
        var w := db[id];
        db := db[id := w.(count := w.count - 1)];
        if db[id].count <= 0 || flag != NOT_HERE {
          log := log + [Answer(id, w.fd, w.src, flag)];
          db := db - {id};
        }
      }
    }
  }
}
