/** Bulk requests of rent payments: item after item through the idempotent runner, each under its own
    key, so that the whole request can be sent again after a failure, also while the first one runs. */
module BulkPayments {
  import opened Basics
  import opened IdempotencyKeys
  import opened I = Idempotency

  const SCOPE := "RENT_PAYMENT"

  datatype Item = Item(receipt: string, hash: string)

  datatype Created = Created(index: nat, response: string)

  datatype Failure = Failure(index: nat, reason: string)

  function ReasonOf(phase: Phase): string {
    if phase.Refused? then "key was used with another request" else "the payment was refused"
  }

  const REPEATED := "receipt is repeated in this request"

  function KeyOfItem(user: nat, key: string, index: nat): Key { Key(user, SCOPE, ItemKey(key, index)) }

  // ---- sessions over the runner -----------------------------------------------------------------

  /** One bulk request on its way through its items: what the next one is, the request to the runner that
      is under way for it, and what has been reported so far. */
  datatype Session = Session(
    user: nat,
    key: string,
    items: seq<Item>,
    next: nat,
    current: Option<nat>,
    usedReceipts: set<string>,
    created: seq<Created>,
    failed: seq<Failure>)

  datatype System = System(runner: I.State, sessions: map<nat, Session>)

  const EMPTY := System(I.INITIAL, map[])

  datatype Act =
    | Open(session: nat, user: nat, key: string, items: seq<Item>)
    | Send(session: nat, client: nat)
    | Skip(session: nat)
    | Collect(session: nat)
    | Single(client: nat, under: Key, hash: string)
    | Inside(event: I.Event)

  function ReceiptOf(x: Session): string
    requires x.next < |x.items|
  {
    Trim(x.items[x.next].receipt)
  }

  predicate IsRepeated(x: Session)
    requires x.next < |x.items|
  {
    ReceiptOf(x) != "" && ReceiptOf(x) in x.usedReceipts
  }

  predicate Answered(p: Phase) { p.Succeeded? || p.Refused? || p.Failed? }

  predicate Ready(sys: System, n: nat) {
    n in sys.sessions && sys.sessions[n].next < |sys.sessions[n].items| && sys.sessions[n].current == None
  }

  /** Keys come from clients and match the pattern; a repeated receipt is refused before anything runs;
      an answer is collected when the runner has one. */
  predicate Possible(sys: System, a: Act) {
    match a
    case Open(n, _, key, _) => n !in sys.sessions && IsKey(key)
    case Send(n, c) => Ready(sys, n) && !IsRepeated(sys.sessions[n]) && c !in sys.runner.clients
    case Skip(n) => Ready(sys, n) && IsRepeated(sys.sessions[n])
    case Collect(n) =>
      && n in sys.sessions && sys.sessions[n].current.Some? && sys.sessions[n].next < |sys.sessions[n].items|
      && sys.sessions[n].current.value in sys.runner.clients
      && Answered(sys.runner.clients[sys.sessions[n].current.value].phase)
    case Single(c, key, _) => c !in sys.runner.clients && IsKey(key.key)
    case Inside(e) => !e.Arrive? && I.Enabled(sys.runner, e)
  }

  /** What the act does inside the runner. */
  function EventOf(sys: System, a: Act): Option<I.Event> {
    match a
    case Send(n, c) =>
      if Ready(sys, n) then
        var x := sys.sessions[n]; Some(Arrive(c, KeyOfItem(x.user, x.key, x.next), x.items[x.next].hash))
      else None
    case Single(c, key, hash) => Some(Arrive(c, key, hash))
    case Inside(e) => Some(e)
    case _ => None
  }

  function Reported(x: Session, phase: Phase): Session
    requires x.next < |x.items|
  {
    var after := x.(next := x.next + 1, current := None);
    if phase.Succeeded? then
      after.(created := x.created + [Created(x.next, phase.answer)],
             usedReceipts := if ReceiptOf(x) != "" then x.usedReceipts + {ReceiptOf(x)} else x.usedReceipts)
    else after.(failed := x.failed + [Failure(x.next, ReasonOf(phase))])
  }

  function SessionsAfter(sys: System, a: Act): map<nat, Session>
    requires Possible(sys, a)
  {
    match a
    case Open(n, user, key, items) => sys.sessions[n := Session(user, key, items, 0, None, {}, [], [])]
    case Send(n, c) => sys.sessions[n := sys.sessions[n].(current := Some(c))]
    case Skip(n) =>
      var x := sys.sessions[n];
      sys.sessions[n := x.(next := x.next + 1, failed := x.failed + [Failure(x.next, REPEATED)])]
    case Collect(n) =>
      var x := sys.sessions[n];
      sys.sessions[n := Reported(x, sys.runner.clients[x.current.value].phase)]
    case _ => sys.sessions
  }

  function Next(sys: System, a: Act): System {
    if !Possible(sys, a) then sys
    else
      var e := EventOf(sys, a);
      System(if e.Some? then I.Apply(sys.runner, e.value) else sys.runner, SessionsAfter(sys, a))
  }

  /** Any schedule of any number of bulk requests, single requests and steps of the runner. */
  function Run(sys: System, acts: seq<Act>): System {
    if acts == [] then sys else Next(Run(sys, acts[..|acts| - 1]), acts[|acts| - 1])
  }

  /** The runner's part of a schedule is a schedule of the runner. */
  function Events(sys: System, acts: seq<Act>): seq<I.Event> {
    if acts == [] then []
    else
      var before, last := Run(sys, acts[..|acts| - 1]), acts[|acts| - 1];
      Events(sys, acts[..|acts| - 1])
      + (if Possible(before, last) && EventOf(before, last).Some? then [EventOf(before, last).value] else [])
  }

  lemma {:induction false} RunnerRuns(sys: System, acts: seq<Act>)
    ensures Run(sys, acts).runner == I.Run(sys.runner, Events(sys, acts))
  {
    if acts != [] {
      var init, last := acts[..|acts| - 1], acts[|acts| - 1];
      RunnerRuns(sys, init);
      var before, events := Run(sys, init), Events(sys, init);
      if Possible(before, last) && EventOf(before, last).Some? {
        assert (events + [EventOf(before, last).value])[..|events|] == events;
      } else {
        assert events + [] == events;
      }
    }
  }

  // ---- what every schedule keeps ----------------------------------------------------------------

  /** A client was told this answer for this key and body. */
  ghost predicate Told(replies: seq<Reply>, key: Key, hash: string, response: string) {
    exists r | r in replies :: r.key == key && r.hash == hash && r.response == response
  }

  ghost predicate AnswersTold(s: I.State) {
    forall c | c in s.clients && s.clients[c].phase.Succeeded? ::
      Told(s.replies, s.clients[c].key, s.clients[c].hash, s.clients[c].phase.answer)
  }

  /** The request under way is for the next item, under that item's key. */
  ghost predicate OnItsItem(runner: I.State, x: Session) {
    x.current.Some? ==>
      && x.next < |x.items| && x.current.value in runner.clients
      && runner.clients[x.current.value].key == KeyOfItem(x.user, x.key, x.next)
      && runner.clients[x.current.value].hash == x.items[x.next].hash
  }

  /** What is reported as created was told by the runner, for the item's own key and body. */
  ghost predicate CreatedWasTold(runner: I.State, x: Session) {
    forall r | r in x.created ::
      r.index < x.next && r.index < |x.items|
      && Told(runner.replies, KeyOfItem(x.user, x.key, r.index), x.items[r.index].hash, r.response)
  }

  function TimesReported(created: seq<Created>, failed: seq<Failure>, index: nat): nat {
    TimesCreated(created, index) + TimesFailed(failed, index)
  }

  function TimesCreated(created: seq<Created>, index: nat): nat {
    if created == [] then 0
    else TimesCreated(created[..|created| - 1], index) + (if created[|created| - 1].index == index then 1 else 0)
  }

  function TimesFailed(failed: seq<Failure>, index: nat): nat {
    if failed == [] then 0
    else TimesFailed(failed[..|failed| - 1], index) + (if failed[|failed| - 1].index == index then 1 else 0)
  }

  /** Each item before the next one has been reported once, as created or as failed; no other has. */
  ghost predicate EachReportedOnce(x: Session) {
    forall i: nat :: TimesReported(x.created, x.failed, i) == if i < x.next then 1 else 0
  }

  ghost predicate SessionOk(runner: I.State, x: Session) {
    IsKey(x.key) && x.next <= |x.items| && OnItsItem(runner, x) && CreatedWasTold(runner, x) && EachReportedOnce(x)
  }

  ghost predicate Inv(sys: System) {
    && I.Inv(sys.runner)
    && AnswersTold(sys.runner)
    && forall n | n in sys.sessions :: SessionOk(sys.runner, sys.sessions[n])
  }

  /** The runner forgets no client and no reply. */
  ghost predicate Extends(s: I.State, t: I.State) {
    && (forall c | c in s.clients :: c in t.clients && t.clients[c].key == s.clients[c].key && t.clients[c].hash == s.clients[c].hash)
    && (forall r | r in s.replies :: r in t.replies)
  }

  lemma ToldStays(before: seq<Reply>, after: seq<Reply>, key: Key, hash: string, response: string)
    requires Told(before, key, hash, response) && forall r | r in before :: r in after
    ensures Told(after, key, hash, response)
  {
    var r :| r in before && r.key == key && r.hash == hash && r.response == response;
    assert r in after;
  }

  /** Only the check and the finish of a client answer it, and both write down what they told. */
  lemma AnswersAreTold(s: I.State, e: I.Event, c: nat)
    requires I.Enabled(s, e) && AnswersTold(s) && c in I.Next(s, e).clients && I.Next(s, e).clients[c].phase.Succeeded?
    ensures var t := I.Next(s, e); Told(t.replies, t.clients[c].key, t.clients[c].hash, t.clients[c].phase.answer)
  {
    var t := I.Next(s, e);
    if c in s.clients && t.clients[c] == s.clients[c] {
      ToldStays(s.replies, t.replies, s.clients[c].key, s.clients[c].hash, s.clients[c].phase.answer);
    } else {
      assert t.replies[|t.replies| - 1] in t.replies;
    }
  }

  lemma NextExtends(s: I.State, e: I.Event)
    requires I.Enabled(s, e)
    ensures Extends(s, I.Next(s, e))
  {
  }

  lemma RunnerStep(s: I.State, e: I.Event) returns (t: I.State)
    requires I.Inv(s) && AnswersTold(s)
    ensures t == I.Apply(s, e) && I.Inv(t) && AnswersTold(t) && Extends(s, t)
  {
    t := I.Apply(s, e);
    I.StepKeeps(s, e);
    if I.Enabled(s, e) {
      NextExtends(s, e);
      forall c | c in t.clients && t.clients[c].phase.Succeeded?
        ensures Told(t.replies, t.clients[c].key, t.clients[c].hash, t.clients[c].phase.answer)
      {
        AnswersAreTold(s, e, c);
      }
    }
  }

  lemma SessionStays(s: I.State, t: I.State, x: Session)
    requires SessionOk(s, x) && Extends(s, t)
    ensures SessionOk(t, x)
  {
    forall r | r in x.created
      ensures Told(t.replies, KeyOfItem(x.user, x.key, r.index), x.items[r.index].hash, r.response)
    {
      var q :| q in s.replies && q.key == KeyOfItem(x.user, x.key, r.index) && q.hash == x.items[r.index].hash && q.response == r.response;
      assert q in t.replies;
    }
  }

  lemma OneMoreReported(x: Session, created: seq<Created>, failed: seq<Failure>)
    requires EachReportedOnce(x)
    requires (exists response :: created == x.created + [Created(x.next, response)] && failed == x.failed)
             || (exists reason :: failed == x.failed + [Failure(x.next, reason)] && created == x.created)
    ensures EachReportedOnce(x.(next := x.next + 1, created := created, failed := failed))
  {
    if created != x.created {
      assert created[..|x.created|] == x.created;
    } else {
      assert failed[..|x.failed|] == x.failed;
    }
    forall i: nat ensures TimesReported(created, failed, i) == if i < x.next + 1 then 1 else 0 {
      assert TimesReported(x.created, x.failed, i) == if i < x.next then 1 else 0;
    }
  }

  lemma ReportKeeps(runner: I.State, x: Session)
    requires AnswersTold(runner) && SessionOk(runner, x) && x.current.Some? && Answered(runner.clients[x.current.value].phase)
    ensures SessionOk(runner, Reported(x, runner.clients[x.current.value].phase))
  {
    var client := runner.clients[x.current.value];
    var y := Reported(x, client.phase);
    if client.phase.Succeeded? {
      assert y.created == x.created + [Created(x.next, client.phase.answer)];
      assert Told(runner.replies, client.key, client.hash, client.phase.answer);
    } else {
      assert y.failed == x.failed + [Failure(x.next, ReasonOf(client.phase))];
    }
    OneMoreReported(x, y.created, y.failed);
    assert EachReportedOnce(y);
  }

  lemma SkipKeeps(runner: I.State, x: Session)
    requires SessionOk(runner, x) && x.next < |x.items| && x.current == None
    ensures SessionOk(runner, x.(next := x.next + 1, failed := x.failed + [Failure(x.next, REPEATED)]))
  {
    var y := x.(next := x.next + 1, failed := x.failed + [Failure(x.next, REPEATED)]);
    OneMoreReported(x, y.created, y.failed);
    assert EachReportedOnce(y);
  }

  lemma SendKeeps(sys: System, n: nat, c: nat, runner: I.State)
    requires Inv(sys) && Possible(sys, Send(n, c)) && runner == I.Apply(sys.runner, EventOf(sys, Send(n, c)).value)
    requires Extends(sys.runner, runner)
    ensures SessionOk(runner, sys.sessions[n].(current := Some(c)))
  {
    var x := sys.sessions[n];
    SessionStays(sys.runner, runner, x);
    var y := x.(current := Some(c));
    assert runner.clients[c] == Client(KeyOfItem(x.user, x.key, x.next), x.items[x.next].hash, Waiting);
    assert EachReportedOnce(y);
    assert CreatedWasTold(runner, y);
  }

  lemma StepKeeps(sys: System, a: Act)
    requires Inv(sys)
    ensures Inv(Next(sys, a))
  {
    if Possible(sys, a) {
      var runner := sys.runner;
      if EventOf(sys, a).Some? { runner := RunnerStep(sys.runner, EventOf(sys, a).value); }
      var after := Next(sys, a);
      assert after.runner == runner;
      forall n | n in after.sessions ensures SessionOk(runner, after.sessions[n]) {
        if n in sys.sessions && after.sessions[n] == sys.sessions[n] {
          SessionStays(sys.runner, runner, sys.sessions[n]);
        } else {
          match a
          case Open(_, _, _, _) =>
          case Send(_, c) => SendKeeps(sys, n, c, runner);
          case Skip(_) => SkipKeeps(runner, sys.sessions[n]);
          case Collect(_) => ReportKeeps(runner, sys.sessions[n]);
          case _ =>
        }
      }
    }
  }

  lemma {:induction false} RunKeeps(acts: seq<Act>)
    ensures Inv(Run(EMPTY, acts))
  {
    if acts == [] {
      I.InitiallySound();
    } else {
      RunKeeps(acts[..|acts| - 1]);
      StepKeeps(Run(EMPTY, acts[..|acts| - 1]), acts[|acts| - 1]);
    }
  }

  // ---- what retries and competitors can do ------------------------------------------------------

  /** How many pieces of work were committed under a key between one purge and the next. */
  function TimesCommitted(log: seq<Commit>, key: Key, epoch: nat): nat {
    if log == [] then 0
    else
      var last := log[|log| - 1];
      TimesCommitted(log[..|log| - 1], key, epoch) + (if last.key == key && last.epoch == epoch then 1 else 0)
  }

  lemma {:induction false} AtMostOncePerEpoch(log: seq<Commit>, key: Key, epoch: nat)
    requires I.Spaced(log)
    ensures TimesCommitted(log, key, epoch) <= 1
    ensures TimesCommitted(log, key, epoch) == 1 ==> exists i | 0 <= i < |log| :: log[i].key == key && log[i].epoch == epoch
  {
    if log != [] {
      var init := log[..|log| - 1];
      assert forall i | 0 <= i < |init| :: init[i] == log[i];
      AtMostOncePerEpoch(init, key, epoch);
    }
  }

  /** In every schedule of bulk requests, retries of them, and single requests, running at the same time:
      each item takes effect at most once between two purges, and two effects of an item lie more than
      the time to live apart. Items of different requests or places never share a key, and no single
      request can use one. */
  lemma RetriesApplyItemsOnce(acts: seq<Act>, user: nat, key: string, i: nat) returns (log: seq<Commit>)
    requires IsKey(key)
    ensures log == Run(EMPTY, acts).runner.log
    ensures forall epoch: nat :: TimesCommitted(log, KeyOfItem(user, key, i), epoch) <= 1
    ensures forall p, q | 0 <= p < q < |log| && log[p].key == log[q].key == KeyOfItem(user, key, i) :: log[q].at - log[p].at > TTL_HOURS
    ensures forall u: nat, k: string, j: nat | IsKey(k) && KeyOfItem(u, k, j) == KeyOfItem(user, key, i) :: u == user && k == key && j == i
    ensures forall c: nat, k: Key, hash: string | Possible(Run(EMPTY, acts), Single(c, k, hash)) :: k != KeyOfItem(user, key, i)
  {
    RunKeeps(acts);
    log := Run(EMPTY, acts).runner.log;
    forall epoch: nat ensures TimesCommitted(log, KeyOfItem(user, key, i), epoch) <= 1 {
      AtMostOncePerEpoch(log, KeyOfItem(user, key, i), epoch);
    }
    ItemKeysAreDistinct(key, i, key, i);
    forall u: nat, k: string, j: nat | IsKey(k) && KeyOfItem(u, k, j) == KeyOfItem(user, key, i)
      ensures u == user && k == key && j == i
    {
      ItemKeysAreDistinct(k, j, key, i);
    }
  }

  /** What a session reports as created was committed, once and for that item with that body, by this
      session or by an earlier or concurrent one; a session that is through has reported every item
      exactly once. */
  lemma SessionsReportCommittedWork(acts: seq<Act>, n: nat)
    requires n in Run(EMPTY, acts).sessions
    ensures var x := Run(EMPTY, acts).sessions[n];
            && (forall r | r in x.created ::
                  r.index < |x.items|
                  && exists c | c in Run(EMPTY, acts).runner.log ::
                       c.key == KeyOfItem(x.user, x.key, r.index) && c.hash == x.items[r.index].hash && c.response == r.response)
            && (forall i: nat :: TimesReported(x.created, x.failed, i) == if i < x.next then 1 else 0)
  {
    RunKeeps(acts);
    RunnerRuns(EMPTY, acts);
    var sys := Run(EMPTY, acts);
    var x := sys.sessions[n];
    assert SessionOk(sys.runner, x);
    forall r | r in x.created
      ensures exists c | c in sys.runner.log ::
                c.key == KeyOfItem(x.user, x.key, r.index) && c.hash == x.items[r.index].hash && c.response == r.response
    {
      var q :| q in sys.runner.replies && q.key == KeyOfItem(x.user, x.key, r.index) && q.hash == x.items[r.index].hash && q.response == r.response;
      I.RepliesAgree(Events(EMPTY, acts), q, q);
    }
  }

  lemma {:induction false} NoPurgeNoEpoch(acts: seq<Act>)
    requires forall a | a in acts :: a != Inside(Purge)
    ensures Run(EMPTY, acts).runner.epoch == 0
  {
    if acts != [] {
      var init := acts[..|acts| - 1];
      assert forall a | a in init :: a in acts;
      assert acts[|acts| - 1] in acts;
      NoPurgeNoEpoch(init);
    }
  }

  /** Until a purge runs, all sessions that sent the same request report the same response for an item,
      however they were interleaved, and they sent the same body for it. */
  lemma RetriesReplay(acts: seq<Act>, m: nat, n: nat, a: Created, b: Created) returns (x: Session, y: Session)
    requires forall act | act in acts :: act != Inside(Purge)
    requires m in Run(EMPTY, acts).sessions && n in Run(EMPTY, acts).sessions
    requires a in Run(EMPTY, acts).sessions[m].created && b in Run(EMPTY, acts).sessions[n].created && a.index == b.index
    requires Run(EMPTY, acts).sessions[m].user == Run(EMPTY, acts).sessions[n].user
    requires Run(EMPTY, acts).sessions[m].key == Run(EMPTY, acts).sessions[n].key
    ensures x == Run(EMPTY, acts).sessions[m] && y == Run(EMPTY, acts).sessions[n]
    ensures a.response == b.response && a.index < |x.items| && b.index < |y.items| && x.items[a.index].hash == y.items[b.index].hash
  {
    RunKeeps(acts);
    RunnerRuns(EMPTY, acts);
    NoPurgeNoEpoch(acts);
    var sys := Run(EMPTY, acts);
    x, y := sys.sessions[m], sys.sessions[n];
    assert SessionOk(sys.runner, x) && SessionOk(sys.runner, y);
    var p :| p in sys.runner.replies && p.key == KeyOfItem(x.user, x.key, a.index) && p.hash == x.items[a.index].hash && p.response == a.response;
    var q :| q in sys.runner.replies && q.key == KeyOfItem(y.user, y.key, b.index) && q.hash == y.items[b.index].hash && q.response == b.response;
    assert ReplyOk(p, sys.runner.rows, sys.runner.log, sys.runner.epoch) && ReplyOk(q, sys.runner.rows, sys.runner.log, sys.runner.epoch);
    I.RepliesAgree(Events(EMPTY, acts), p, q);
  }

  // ---- repeated receipts in every schedule --------------------------------------------------------

  /** The items refused as repeated are those whose receipt is not blank and that of an earlier item that was
      created; the request under way is for no such item. */
  ghost predicate RepeatsOk(x: Session) {
    && x.next <= |x.items|
    && ReceiptsUsed(x.items, x.created, x.usedReceipts)
    && (forall r | r in x.created :: r.index < x.next) && (forall f | f in x.failed :: f.index < x.next)
    && (forall i | 0 <= i < x.next :: Failure(i, REPEATED) in x.failed <==> RepeatsReceipt(x.items, x.created, i))
    && (x.current.Some? && x.next < |x.items| ==> !IsRepeated(x))
  }

  lemma SkippedIsRepeated(x: Session)
    requires RepeatsOk(x) && x.next < |x.items| && IsRepeated(x) && x.current == None
    ensures RepeatsOk(x.(next := x.next + 1, failed := x.failed + [Failure(x.next, REPEATED)]))
  {
    var y := x.(next := x.next + 1, failed := x.failed + [Failure(x.next, REPEATED)]);
    assert forall f :: f in y.failed <==> f in x.failed || f == Failure(x.next, REPEATED);
  }

  lemma ReportedIsNot(x: Session, phase: Phase)
    requires RepeatsOk(x) && x.next < |x.items| && x.current.Some?
    ensures RepeatsOk(Reported(x, phase))
  {
    var y := Reported(x, phase);
    if phase.Succeeded? {
      assert forall r :: r in y.created <==> r in x.created || r == Created(x.next, phase.answer);
      forall i | 0 <= i < x.next ensures RepeatsReceipt(x.items, y.created, i) <==> RepeatsReceipt(x.items, x.created, i) {
        SameRepeats(x.items, x.created, y.created, i);
      }
    } else {
      assert forall f :: f in y.failed <==> f in x.failed || f == Failure(x.next, ReasonOf(phase));
    }
  }

  lemma StepKeepsRepeats(sys: System, a: Act)
    requires forall n | n in sys.sessions :: RepeatsOk(sys.sessions[n])
    ensures forall n | n in Next(sys, a).sessions :: RepeatsOk(Next(sys, a).sessions[n])
  {
    if Possible(sys, a) {
      match a
      case Skip(n) => SkippedIsRepeated(sys.sessions[n]);
      case Collect(n) => ReportedIsNot(sys.sessions[n], sys.runner.clients[sys.sessions[n].current.value].phase);
      case _ =>
    }
  }

  lemma {:induction false} RunKeepsRepeats(acts: seq<Act>)
    ensures forall n | n in Run(EMPTY, acts).sessions :: RepeatsOk(Run(EMPTY, acts).sessions[n])
  {
    if acts != [] {
      RunKeepsRepeats(acts[..|acts| - 1]);
      StepKeepsRepeats(Run(EMPTY, acts[..|acts| - 1]), acts[|acts| - 1]);
    }
  }

  /** In every schedule, an item a session is through with was refused as repeated exactly when its receipt is
      not blank and that of an earlier item the session reports as created; and then it is not created. */
  lemma OnlyRepeatedReceiptsAreRefused(acts: seq<Act>, n: nat, i: nat)
    requires n in Run(EMPTY, acts).sessions && i < Run(EMPTY, acts).sessions[n].next
    ensures var x := Run(EMPTY, acts).sessions[n];
            && i < |x.items|
            && (Failure(i, REPEATED) in x.failed <==> RepeatsReceipt(x.items, x.created, i))
            && (RepeatsReceipt(x.items, x.created, i) ==> forall r | r in x.created :: r.index != i)
  {
    RunKeepsRepeats(acts);
    RunKeeps(acts);
    var x := Run(EMPTY, acts).sessions[n];
    assert SessionOk(Run(EMPTY, acts).runner, x) && RepeatsOk(x);
    if RepeatsReceipt(x.items, x.created, i) { RefusedIsNotCreated(x, Failure(i, REPEATED)); }
  }

  lemma RefusedIsNotCreated(x: Session, f: Failure)
    requires EachReportedOnce(x) && f in x.failed
    ensures forall r | r in x.created :: r.index != f.index
  {
    assert TimesReported(x.created, x.failed, f.index) <= 1;
    FailedIsCounted(x.failed, f);
    forall r | r in x.created ensures r.index != f.index {
      if r.index == f.index { CreatedIsCounted(x.created, r); }
    }
  }

  lemma {:induction false} FailedIsCounted(failed: seq<Failure>, f: Failure)
    requires f in failed
    ensures TimesFailed(failed, f.index) > 0
  {
    if failed[|failed| - 1] != f { FailedIsCounted(failed[..|failed| - 1], f); }
  }

  lemma {:induction false} CreatedIsCounted(created: seq<Created>, r: Created)
    requires r in created
    ensures TimesCreated(created, r.index) > 0
  {
    if created[|created| - 1] != r { CreatedIsCounted(created[..|created| - 1], r); }
  }

  // ---- the request handler as it runs -----------------------------------------------------------

  /** A request nobody competes with: it gets the lock at once and goes through without a break. */
  function Solo(c: nat, key: Key, hash: string, outcome: Option<string>): seq<I.Event> {
    [Arrive(c, key, hash), Acquire(c), Check(c), Work(c, outcome), Finish(c)]
  }

  function Answering(s: I.State, c: nat, key: Key, hash: string, phase: Phase): I.State {
    s.(clients := s.clients[c := Client(key, hash, phase)])
  }

  ghost predicate WasCommitted(log: seq<Commit>, key: Key, hash: string, response: string) {
    exists c | c in log :: c.key == key && c.hash == hash && c.response == response
  }

  /** What such a request leaves: a replay, a refusal, a failure, or the work and its key row. */
  function SoloState(s: I.State, c: nat, key: Key, hash: string, outcome: Option<string>): I.State {
    if key in s.rows then
      if s.rows[key].hash != hash then Answering(s, c, key, hash, Refused)
      else
        Answering(s, c, key, hash, Succeeded(s.rows[key].response)).(replies := s.replies + [Reply(key, hash, s.rows[key].response, s.epoch)])
    else if outcome.None? then Answering(s, c, key, hash, Failed)
    else
      Answering(s, c, key, hash, Succeeded(outcome.value)).(
        rows := s.rows[key := Row(hash, outcome.value, s.clock + TTL_HOURS)],
        log := s.log + [Commit(key, hash, outcome.value, s.clock, s.epoch)],
        replies := s.replies + [Reply(key, hash, outcome.value, s.epoch)])
  }

  lemma SoloLeaves(s: I.State, c: nat, key: Key, hash: string, outcome: Option<string>)
    requires c !in s.clients && I.LockIsFree(s, key)
    ensures I.Run(s, Solo(c, key, hash, outcome)) == SoloState(s, c, key, hash, outcome)
  {
    var events := Solo(c, key, hash, outcome);
    var s1 := I.Apply(s, events[0]);
    var s2 := I.Apply(s1, events[1]);
    var s3 := I.Apply(s2, events[2]);
    var s4 := I.Apply(s3, events[3]);
    var t := I.Apply(s4, events[4]);
    RunOfFive(s, events[0], events[1], events[2], events[3], events[4]);
    assert s2.clients == s.clients[c := Client(key, hash, Locked)];
    assert s3.clients == s.clients[c := s3.clients[c]];
    assert s4.clients == s.clients[c := s4.clients[c]];
    assert t.clients == s.clients[c := t.clients[c]];
  }

  /** Request `c` was answered and no other was touched; a success repeats committed work under the key,
      with the same body; at most that one piece of work is new. */
  ghost predicate Served(s: I.State, t: I.State, c: nat, key: Key, hash: string, reply: Option<string>) {
    && t.clients.Keys == s.clients.Keys + {c}
    && (forall d | d in s.clients :: t.clients[d] == s.clients[d])
    && t.clients[c].key == key && Answered(t.clients[c].phase)
    && reply == (if t.clients[c].phase.Succeeded? then Some(t.clients[c].phase.answer) else None)
    && (reply.Some? ==> WasCommitted(t.log, key, hash, reply.value))
    && (t.log == s.log || (reply.Some? && t.log == s.log + [Commit(key, hash, reply.value, s.clock, s.epoch)]))
  }

  lemma StoredAnswerWasCommitted(s: I.State, key: Key)
    requires I.Inv(s) && key in s.rows
    ensures WasCommitted(s.log, key, s.rows[key].hash, s.rows[key].response)
  {
    var i: nat :| I.RowOf(s.rows, s.log, key, i);
    assert s.log[i] in s.log;
  }

  lemma SoloKeeps(s: I.State, c: nat, key: Key, hash: string, outcome: Option<string>)
    requires c !in s.clients && I.LockIsFree(s, key) && I.Inv(s)
    ensures I.Inv(SoloState(s, c, key, hash, outcome))
  {
    SoloLeaves(s, c, key, hash, outcome);
    I.RunKeeps(s, Solo(c, key, hash, outcome));
  }

  lemma SoloServes(s: I.State, c: nat, key: Key, hash: string, outcome: Option<string>, reply: Option<string>)
    requires c !in s.clients && (key in s.rows ==> WasCommitted(s.log, key, s.rows[key].hash, s.rows[key].response))
    requires var p := SoloState(s, c, key, hash, outcome).clients[c].phase; reply == if p.Succeeded? then Some(p.answer) else None
    ensures Served(s, SoloState(s, c, key, hash, outcome), c, key, hash, reply)
  {
    var t := SoloState(s, c, key, hash, outcome);
    if key !in s.rows && outcome.Some? {
      assert t.log[|s.log|] in t.log;
    }
  }

  lemma RunOfFive(s: I.State, a: I.Event, b: I.Event, c: I.Event, d: I.Event, e: I.Event)
    ensures I.Run(s, [a, b, c, d, e]) == I.Apply(I.Apply(I.Apply(I.Apply(I.Apply(s, a), b), c), d), e)
  {
    assert [a, b, c, d, e][..4] == [a, b, c, d] && [a, b, c, d][..3] == [a, b, c] && [a, b, c][..2] == [a, b];
    assert [a, b][..1] == [a] && [a][..0] == [];
    assert I.Run(s, [a]) == I.Apply(s, a);
    assert I.Run(s, [a, b]) == I.Apply(I.Run(s, [a]), b);
    assert I.Run(s, [a, b, c]) == I.Apply(I.Run(s, [a, b]), c);
    assert I.Run(s, [a, b, c, d]) == I.Apply(I.Run(s, [a, b, c]), d);
  }

  /** The answer to a request: the one stored under its key for the same body, none for another body, and
      for a free key what the work comes to. */
  function AnswerOf(rows: map<Key, Row>, key: Key, hash: string, outcome: Option<string>): Option<string> {
    if key !in rows then outcome else if rows[key].hash == hash then Some(rows[key].response) else None
  }

  /** Why a request gets no answer. */
  function WhyNot(rows: map<Key, Row>, key: Key, hash: string): string {
    if key in rows && rows[key].hash != hash then "key was used with another request" else "the payment was refused"
  }

  /** The receipt of an item is not blank, and an earlier item with the same receipt was created. */
  ghost predicate RepeatsReceipt(items: seq<Item>, created: seq<Created>, i: nat)
    requires i < |items|
  {
    && Trim(items[i].receipt) != ""
    && exists r | r in created :: r.index < i && Trim(items[r.index].receipt) == Trim(items[i].receipt)
  }

  /** How item `i` is reported, given the key table as the request found it: refused as repeated, or created
      with the answer under its own key, or failed for want of one. */
  ghost predicate ReportedAsDue(found: map<Key, Row>, user: nat, key: string, items: seq<Item>,
                                outcomes: seq<Option<string>>, created: seq<Created>, failed: seq<Failure>, i: nat)
    requires i < |items| == |outcomes|
  {
    var k := KeyOfItem(user, key, i);
    var repeated := RepeatsReceipt(items, created, i);
    var answer := AnswerOf(found, k, items[i].hash, outcomes[i]);
    && (Failure(i, REPEATED) in failed <==> repeated)
    && (Failure(i, "key was used with another request") in failed <==> !repeated && k in found && found[k].hash != items[i].hash)
    && (Failure(i, "the payment was refused") in failed <==> !repeated && k !in found && outcomes[i] == None)
    && (forall response :: Created(i, response) in created <==> !repeated && answer == Some(response))
  }

  ghost predicate AllReportedAsDue(found: map<Key, Row>, user: nat, key: string, items: seq<Item>,
                                   outcomes: seq<Option<string>>, created: seq<Created>, failed: seq<Failure>, n: nat)
    requires n <= |items| == |outcomes|
  {
    && (forall r | r in created :: r.index < n) && (forall f | f in failed :: f.index < n)
    && (forall i | 0 <= i < n :: ReportedAsDue(found, user, key, items, outcomes, created, failed, i))
  }

  /** The report of the first items does not depend on what is reported later. */
  lemma EarlierReportsStay(found: map<Key, Row>, user: nat, key: string, items: seq<Item>, outcomes: seq<Option<string>>,
                           created: seq<Created>, failed: seq<Failure>, created': seq<Created>, failed': seq<Failure>, n: nat)
    requires n < |items| == |outcomes| && AllReportedAsDue(found, user, key, items, outcomes, created, failed, n)
    requires created' == created || (|created'| == |created| + 1 && created'[..|created|] == created && created'[|created|].index == n)
    requires failed' == failed || (|failed'| == |failed| + 1 && failed'[..|failed|] == failed && failed'[|failed|].index == n)
    requires ReportedAsDue(found, user, key, items, outcomes, created', failed', n)
    ensures AllReportedAsDue(found, user, key, items, outcomes, created', failed', n + 1)
  {
    assert forall r: Created | r.index < n :: r in created' <==> r in created;
    assert forall f: Failure | f.index < n :: f in failed' <==> f in failed;
    forall r | r in created' ensures r.index < n + 1 {
      if r !in created { assert r == created'[|created|]; }
    }
    forall f | f in failed' ensures f.index < n + 1 {
      if f !in failed { assert f == failed'[|failed|]; }
    }
    forall i | 0 <= i < n ensures ReportedAsDue(found, user, key, items, outcomes, created', failed', i) {
      SameRepeats(items, created, created', i);
      assert ReportedAsDue(found, user, key, items, outcomes, created, failed, i);
    }
  }

  lemma SameRepeats(items: seq<Item>, created: seq<Created>, created': seq<Created>, i: nat)
    requires i < |items| && forall r: Created | r.index < i :: r in created' <==> r in created
    ensures RepeatsReceipt(items, created', i) <==> RepeatsReceipt(items, created, i)
  {
  }

  ghost predicate ReceiptsUsed(items: seq<Item>, created: seq<Created>, used: set<string>) {
    forall s :: s in used <==> s != "" && exists r | r in created :: r.index < |items| && Trim(items[r.index].receipt) == s
  }

  /** An item refused as repeated. */
  lemma RepeatedIsDue(found: map<Key, Row>, user: nat, key: string, items: seq<Item>, outcomes: seq<Option<string>>,
                      created: seq<Created>, failed: seq<Failure>, used: set<string>, i: nat)
    requires i < |items| == |outcomes| && AllReportedAsDue(found, user, key, items, outcomes, created, failed, i)
    requires ReceiptsUsed(items, created, used) && Trim(items[i].receipt) != "" && Trim(items[i].receipt) in used
    ensures AllReportedAsDue(found, user, key, items, outcomes, created, failed + [Failure(i, REPEATED)], i + 1)
  {
    var r :| r in created && r.index < |items| && Trim(items[r.index].receipt) == Trim(items[i].receipt);
    assert r.index < i;
    assert ReportedAsDue(found, user, key, items, outcomes, created, failed + [Failure(i, REPEATED)], i);
    EarlierReportsStay(found, user, key, items, outcomes, created, failed, created, failed + [Failure(i, REPEATED)], i);
  }

  /** An item that went to the runner. */
  lemma ServedIsDue(found: map<Key, Row>, user: nat, key: string, items: seq<Item>, outcomes: seq<Option<string>>,
                    created: seq<Created>, failed: seq<Failure>, created': seq<Created>, failed': seq<Failure>,
                    used: set<string>, i: nat)
    requires i < |items| == |outcomes| && AllReportedAsDue(found, user, key, items, outcomes, created, failed, i)
    requires ReceiptsUsed(items, created, used) && (Trim(items[i].receipt) == "" || Trim(items[i].receipt) !in used)
    requires var k := KeyOfItem(user, key, i);
             var answer := AnswerOf(found, k, items[i].hash, outcomes[i]);
             if answer.Some? then created' == created + [Created(i, answer.value)] && failed' == failed
             else created' == created && failed' == failed + [Failure(i, WhyNot(found, k, items[i].hash))]
    ensures AllReportedAsDue(found, user, key, items, outcomes, created', failed', i + 1)
    ensures var receipt := Trim(items[i].receipt);
            ReceiptsUsed(items, created', if receipt != "" && |created'| > |created| then used + {receipt} else used)
  {
    assert !RepeatsReceipt(items, created', i);
    assert ReportedAsDue(found, user, key, items, outcomes, created', failed', i);
    EarlierReportsStay(found, user, key, items, outcomes, created, failed, created', failed', i);
    if created' != created {
      var last := created'[|created|];
      assert forall r :: r in created' <==> r in created || r == last;
    }
  }

  class Runner {
    var rows: map<Key, Row>
    var log: seq<Commit>
    var replies: seq<Reply>
    var clients: map<nat, Client>
    var clock: real
    var epoch: nat

    constructor ()
      ensures State() == I.INITIAL
    {
      rows, log, replies, clients, clock, epoch := map[], [], [], map[], 0.0, 0;
    }

    ghost function State(): I.State
      reads this
    {
      I.State(rows, log, replies, clients, clock, epoch)
    }

    /** The runner serving request `c` with nobody in its way; `outcome` is how the work would end. It goes
        through the steps of the machine, keeps the machine's invariant, and answers with committed work. */
    method RunIdempotent(c: nat, key: Key, hash: string, outcome: Option<string>) returns (reply: Option<string>)
      requires c !in clients && I.LockIsFree(State(), key) && I.Inv(State())
      modifies this
      ensures State() == I.Run(old(State()), Solo(c, key, hash, outcome))
      ensures I.Inv(State()) && Served(old(State()), State(), c, key, hash, reply)
      ensures reply == AnswerOf(old(rows), key, hash, outcome)
      ensures clients[c].phase.Refused? <==> key in old(rows) && old(rows)[key].hash != hash
      ensures forall k | k != key :: (k in rows <==> k in old(rows)) && (k in rows ==> rows[k] == old(rows)[k])
    {
      ghost var before := State();
      if key in rows {
        var existing := rows[key];
        if existing.hash != hash {
          clients := clients[c := Client(key, hash, Refused)];
          reply := None;
        } else {
          clients := clients[c := Client(key, hash, Succeeded(existing.response))];
          replies := replies + [Reply(key, hash, existing.response, epoch)];
          reply := Some(existing.response);
        }
      } else if outcome.None? {
        clients := clients[c := Client(key, hash, Failed)];
        reply := None;
      } else {
        log := log + [Commit(key, hash, outcome.value, clock, epoch)];
        rows := rows[key := Row(hash, outcome.value, clock + TTL_HOURS)];
        clients := clients[c := Client(key, hash, Succeeded(outcome.value))];
        replies := replies + [Reply(key, hash, outcome.value, epoch)];
        reply := outcome;
      }
      assert State() == SoloState(before, c, key, hash, outcome);
      SoloLeaves(before, c, key, hash, outcome);
      if key in before.rows { StoredAnswerWasCommitted(before, key); }
      SoloServes(before, c, key, hash, outcome, reply);
      SoloKeeps(before, c, key, hash, outcome);
    }

    /** What a bulk request has reported and left after its first `n` items, started with `before`. */
    ghost predicate Progress(user: nat, key: string, items: seq<Item>, base: nat, before: seq<Commit>,
                             created: seq<Created>, failed: seq<Failure>, n: nat)
      reads this
    {
      && n <= |items| && I.Inv(State())
      && (forall c | c in clients :: c < base + n && Answered(clients[c].phase))
      && (forall j: nat :: TimesReported(created, failed, j) == if j < n then 1 else 0)
      && (forall r | r in created :: r.index < n && WasCommitted(log, KeyOfItem(user, key, r.index), items[r.index].hash, r.response))
      && before <= log && |log| <= |before| + |created|
    }

    /** One item goes to the runner under its own key. */
    method ServeItem(user: nat, key: string, items: seq<Item>, outcome: Option<string>, base: nat,
                     ghost before: seq<Commit>,
                     created: seq<Created>, failed: seq<Failure>, i: nat)
      returns (created': seq<Created>, failed': seq<Failure>)
      requires i < |items| && Progress(user, key, items, base, before, created, failed, i)
      modifies this
      ensures Progress(user, key, items, base, before, created', failed', i + 1)
      ensures forall k | k != KeyOfItem(user, key, i) :: (k in rows <==> k in old(rows)) && (k in rows ==> rows[k] == old(rows)[k])
      ensures var answer := AnswerOf(old(rows), KeyOfItem(user, key, i), items[i].hash, outcome);
              if answer.Some? then created' == created + [Created(i, answer.value)] && failed' == failed
              else created' == created && failed' == failed + [Failure(i, WhyNot(old(rows), KeyOfItem(user, key, i), items[i].hash))]
    {
      ghost var logBefore := log;
      var reply := RunIdempotent(base + i, KeyOfItem(user, key, i), items[i].hash, outcome);
      CommitsStay(logBefore, log, user, key, items, created);
      created', failed' := created, failed;
      if reply.Some? {
        created' := created + [Created(i, reply.value)];
        OneMoreCreated(created, failed, i, reply.value);
      } else {
        failed' := failed + [Failure(i, ReasonOf(clients[base + i].phase))];
        OneMoreFailed(created, failed, i, ReasonOf(clients[base + i].phase));
      }
    }

    /** The loop of a bulk request under a key, with nobody in its way: a repeated receipt is refused,
        everything else goes to the runner under the item's own key as request `base + i`. Each item is
        reported once: as repeated exactly when its receipt is not blank and that of an earlier item that was
        created, and otherwise as created exactly when its key holds an answer for the same body or is free and
        the work succeeds, with that answer. What is reported as created is committed work. */
    method CreatePaymentsBulk(user: nat, key: string, items: seq<Item>, outcomes: seq<Option<string>>, base: nat)
      returns (created: seq<Created>, failed: seq<Failure>)
      requires |items| == |outcomes| && I.Inv(State())
      requires forall c | c in clients :: c < base && Answered(clients[c].phase)
      modifies this
      ensures I.Inv(State())
      ensures forall i: nat :: TimesReported(created, failed, i) == if i < |items| then 1 else 0
      ensures forall r | r in created ::
                r.index < |items| && WasCommitted(log, KeyOfItem(user, key, r.index), items[r.index].hash, r.response)
      ensures old(log) <= log && |log| <= |old(log)| + |created|
      ensures AllReportedAsDue(old(rows), user, key, items, outcomes, created, failed, |items|)
    {
      created, failed := [], [];
      var usedReceipts: set<string> := {};
      for i := 0 to |items|
        invariant Handled(old(rows), old(log), user, key, items, outcomes, base, created, failed, usedReceipts, i)
      {
        created, failed, usedReceipts :=
          HandleItem(old(rows), old(log), user, key, items, outcomes, base, created, failed, usedReceipts, i);
      }
    }

    /** The request after its first `n` items. */
    ghost predicate Handled(found: map<Key, Row>, before: seq<Commit>, user: nat, key: string, items: seq<Item>,
                            outcomes: seq<Option<string>>, base: nat, created: seq<Created>, failed: seq<Failure>,
                            used: set<string>, n: nat)
      reads this
    {
      && Progress(user, key, items, base, before, created, failed, n)
      && |items| == |outcomes| && AllReportedAsDue(found, user, key, items, outcomes, created, failed, n)
      && ReceiptsUsed(items, created, used)
      && Untouched(found, user, key, n)
    }

    method HandleItem(ghost found: map<Key, Row>, ghost before: seq<Commit>, user: nat, key: string, items: seq<Item>,
                      outcomes: seq<Option<string>>, base: nat, created: seq<Created>, failed: seq<Failure>,
                      usedReceipts: set<string>, i: nat)
      returns (created': seq<Created>, failed': seq<Failure>, used': set<string>)
      requires i < |items| && Handled(found, before, user, key, items, outcomes, base, created, failed, usedReceipts, i)
      modifies this
      ensures Handled(found, before, user, key, items, outcomes, base, created', failed', used', i + 1)
    {
      var receipt := Trim(items[i].receipt);
      used' := usedReceipts;
      if receipt != "" && receipt in usedReceipts {
        created', failed' := created, failed + [Failure(i, REPEATED)];
        OneMoreFailed(created, failed, i, REPEATED);
        RepeatedIsDue(found, user, key, items, outcomes, created, failed, usedReceipts, i);
      } else {
        created', failed' := ServeItem(user, key, items, outcomes[i], base, before, created, failed, i);
        ServedIsDue(found, user, key, items, outcomes, created, failed, created', failed', usedReceipts, i);
        if receipt != "" && |created'| > |created| { used' := usedReceipts + {receipt}; }
        LaterKeysDiffer(user, key, i);
      }
    }

    /** The keys of the items from `i` on are as the request found them. */
    ghost predicate Untouched(found: map<Key, Row>, user: nat, key: string, i: nat)
      reads this
    {
      forall j: nat | j >= i ::
        var k := KeyOfItem(user, key, j);
        (k in rows <==> k in found) && (k in rows ==> rows[k] == found[k])
    }
  }

  lemma LaterKeysDiffer(user: nat, key: string, i: nat)
    ensures forall j: nat | j > i :: KeyOfItem(user, key, j) != KeyOfItem(user, key, i)
  {
    forall j: nat | j > i ensures KeyOfItem(user, key, j) != KeyOfItem(user, key, i) {
      PlacesHaveTheirKeys(key, j, i);
    }
  }

  lemma CommitsStay(before: seq<Commit>, after: seq<Commit>, user: nat, key: string, items: seq<Item>,
                    created: seq<Created>)
    requires before <= after
    requires forall r | r in created ::
               r.index < |items| && WasCommitted(before, KeyOfItem(user, key, r.index), items[r.index].hash, r.response)
    ensures forall r | r in created :: WasCommitted(after, KeyOfItem(user, key, r.index), items[r.index].hash, r.response)
  {
    forall r | r in created ensures WasCommitted(after, KeyOfItem(user, key, r.index), items[r.index].hash, r.response) {
      var c :| c in before && c.key == KeyOfItem(user, key, r.index) && c.hash == items[r.index].hash && c.response == r.response;
      assert c in after;
    }
  }

  lemma OneMoreCreated(created: seq<Created>, failed: seq<Failure>, i: nat, response: string)
    requires forall j: nat :: TimesReported(created, failed, j) == if j < i then 1 else 0
    ensures forall j: nat :: TimesReported(created + [Created(i, response)], failed, j) == if j < i + 1 then 1 else 0
  {
    assert (created + [Created(i, response)])[..|created|] == created;
    forall j: nat ensures TimesReported(created + [Created(i, response)], failed, j) == if j < i + 1 then 1 else 0 {
      assert TimesReported(created, failed, j) == if j < i then 1 else 0;
    }
  }

  lemma OneMoreFailed(created: seq<Created>, failed: seq<Failure>, i: nat, reason: string)
    requires forall j: nat :: TimesReported(created, failed, j) == if j < i then 1 else 0
    ensures forall j: nat :: TimesReported(created, failed + [Failure(i, reason)], j) == if j < i + 1 then 1 else 0
  {
    assert (failed + [Failure(i, reason)])[..|failed|] == failed;
    forall j: nat ensures TimesReported(created, failed + [Failure(i, reason)], j) == if j < i + 1 then 1 else 0 {
      assert TimesReported(created, failed, j) == if j < i then 1 else 0;
    }
  }
}
