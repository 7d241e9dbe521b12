/** The idempotent transaction runner as a machine of any number of interleaved clients: lock, look for
    the key, work, and commit the work together with its key; beside it, the job that purges old keys. */
module Idempotency {
  import opened Basics

  const TTL_HOURS := 48.0

  /** A key is unique per user and kind of operation. */
  datatype Key = Key(user: nat, scope: string, key: string)

  datatype Row = Row(hash: string, response: string, expiresAt: real)

  /** Work that was committed under a key: by whose request, when the key row was stamped, and how
      many purges had run by then. */
  datatype Commit = Commit(key: Key, hash: string, response: string, at: real, epoch: nat)

  /** A success a client was told, and how many purges had run when its answer was fixed. */
  datatype Reply = Reply(key: Key, hash: string, response: string, epoch: nat)

  datatype Phase =
    | Waiting
    | Locked
    | Fresh
    | Worked(response: string, at: real)
    | Succeeded(answer: string)
    | Refused
    | Failed

  datatype Client = Client(key: Key, hash: string, phase: Phase)

  /** `rows` is the key table, `log` the committed work in order, `replies` every success told. */
  datatype State = State(
    rows: map<Key, Row>,
    log: seq<Commit>,
    replies: seq<Reply>,
    clients: map<nat, Client>,
    clock: real,
    epoch: nat)

  const INITIAL := State(map[], [], [], map[], 0.0, 0)

  datatype Event =
    | Arrive(client: nat, key: Key, hash: string)
    | Acquire(client: nat)
    | Check(client: nat)
    | Work(client: nat, outcome: Option<string>)
    | Finish(client: nat)
    | Drop(client: nat)
    | Tick(hours: real)
    | Purge

  predicate Holding(p: Phase) { p.Locked? || p.Fresh? || p.Worked? }

  predicate LockIsFree(s: State, key: Key) {
    forall c | c in s.clients :: s.clients[c].key == key ==> !Holding(s.clients[c].phase)
  }

  function Moved(s: State, c: nat, p: Phase): State
    requires c in s.clients
  {
    s.(clients := s.clients[c := s.clients[c].(phase := p)])
  }

  predicate Enabled(s: State, e: Event) {
    match e
    case Arrive(c, _, _) => c !in s.clients
    case Acquire(c) => c in s.clients && s.clients[c].phase.Waiting? && LockIsFree(s, s.clients[c].key)
    case Check(c) => c in s.clients && s.clients[c].phase.Locked?
    case Work(c, _) => c in s.clients && s.clients[c].phase.Fresh?
    case Finish(c) => c in s.clients && s.clients[c].phase.Worked?
    case Drop(c) => c in s.clients && (s.clients[c].phase.Waiting? || Holding(s.clients[c].phase))
    case Tick(hours) => hours >= 0.0
    case Purge => true
  }

  /** The key row is read under the lock: the stored answer, a refusal, or go on to the work. */
  function Checked(s: State, c: nat): State
    requires c in s.clients
  {
    var client := s.clients[c];
    if client.key !in s.rows then Moved(s, c, Fresh)
    else
      var row := s.rows[client.key];
      if row.hash != client.hash then Moved(s, c, Refused)
      else Moved(s, c, Succeeded(row.response)).(replies := s.replies + [Reply(client.key, client.hash, row.response, s.epoch)])
  }

  /** Work and key row are committed together; the unique index would reject a second row. */
  function Finished(s: State, c: nat): State
    requires c in s.clients && s.clients[c].phase.Worked?
  {
    var client := s.clients[c];
    var p := client.phase;
    if client.key in s.rows then Moved(s, c, Failed)
    else
      Moved(s, c, Succeeded(p.response)).(
        rows := s.rows[client.key := Row(client.hash, p.response, p.at + TTL_HOURS)],
        log := s.log + [Commit(client.key, client.hash, p.response, p.at, s.epoch)],
        replies := s.replies + [Reply(client.key, client.hash, p.response, s.epoch)])
  }

  function Next(s: State, e: Event): State
    requires Enabled(s, e)
  {
    match e
    case Arrive(c, key, hash) => s.(clients := s.clients[c := Client(key, hash, Waiting)])
    case Acquire(c) => Moved(s, c, Locked)
    case Check(c) => Checked(s, c)
    case Work(c, outcome) => Moved(s, c, if outcome.Some? then Worked(outcome.value, s.clock) else Failed)
    case Finish(c) => Finished(s, c)
    case Drop(c) => Moved(s, c, Failed)
    case Tick(hours) => s.(clock := s.clock + hours)
    case Purge => s.(rows := map k | k in s.rows && s.rows[k].expiresAt >= s.clock :: s.rows[k], epoch := s.epoch + 1)
  }

  function Apply(s: State, e: Event): State { if Enabled(s, e) then Next(s, e) else s }

  /** Any schedule of any number of clients; events that cannot happen are skipped. */
  function Run(s: State, events: seq<Event>): State {
    if events == [] then s else Apply(Run(s, events[..|events| - 1]), events[|events| - 1])
  }

  // ---- the invariant ----------------------------------------------------------------------------

  ghost predicate OneHolder(clients: map<nat, Client>) {
    forall c, d | c in clients && d in clients && clients[c].key == clients[d].key
      && Holding(clients[c].phase) && Holding(clients[d].phase) :: c == d
  }

  /** No work was stamped under the key within the time to live before `now`. */
  ghost predicate LongAgo(log: seq<Commit>, key: Key, now: real) {
    forall i | 0 <= i < |log| && log[i].key == key :: log[i].at + TTL_HOURS < now
  }

  /** A client past the check found no row, and there is none. */
  ghost predicate PastCheckOk(client: Client, rows: map<Key, Row>, log: seq<Commit>, clock: real) {
    && (client.phase.Fresh? ==> client.key !in rows)
    && (client.phase.Worked? ==>
          client.key !in rows && client.phase.at <= clock && LongAgo(log, client.key, client.phase.at))
  }

  ghost predicate PastCheck(clients: map<nat, Client>, rows: map<Key, Row>, log: seq<Commit>, clock: real) {
    forall c | c in clients :: PastCheckOk(clients[c], rows, log, clock)
  }

  /** The row of a key is that of commit `i`, the latest under the key. */
  ghost predicate RowOf(rows: map<Key, Row>, log: seq<Commit>, key: Key, i: nat)
    requires key in rows
  {
    && i < |log|
    && log[i].key == key
    && rows[key] == Row(log[i].hash, log[i].response, log[i].at + TTL_HOURS)
    && forall j | i < j < |log| :: log[j].key != key
  }

  ghost predicate RowsOk(rows: map<Key, Row>, log: seq<Commit>, clock: real, epoch: nat) {
    && (forall key | key in rows :: exists i: nat :: RowOf(rows, log, key, i))
    && (forall i | 0 <= i < |log| && log[i].key !in rows :: log[i].at + TTL_HOURS < clock && log[i].epoch < epoch)
    && (forall i | 0 <= i < |log| :: log[i].epoch <= epoch)
  }

  /** Two pieces of work under one key lie more than the time to live apart, with a purge between. */
  ghost predicate Spaced(log: seq<Commit>) {
    forall i, j | 0 <= i < j < |log| && log[i].key == log[j].key ::
      log[i].at + TTL_HOURS < log[j].at && log[i].epoch < log[j].epoch
  }

  /** The reply repeats commit `i`, and no later commit under its key falls into its epoch. */
  ghost predicate Repeats(log: seq<Commit>, r: Reply, i: nat) {
    && i < |log|
    && log[i].key == r.key && log[i].hash == r.hash && log[i].response == r.response && log[i].epoch <= r.epoch
    && forall j | i < j < |log| && log[j].key == r.key :: log[j].epoch > r.epoch
  }

  ghost predicate ReplyOk(r: Reply, rows: map<Key, Row>, log: seq<Commit>, epoch: nat) {
    && r.epoch <= epoch
    && (r.epoch == epoch ==> r.key in rows)
    && exists i: nat :: Repeats(log, r, i)
  }

  ghost predicate RepliesOk(replies: seq<Reply>, rows: map<Key, Row>, log: seq<Commit>, epoch: nat) {
    forall r | r in replies :: ReplyOk(r, rows, log, epoch)
  }

  ghost predicate Inv(s: State) {
    && OneHolder(s.clients)
    && PastCheck(s.clients, s.rows, s.log, s.clock)
    && RowsOk(s.rows, s.log, s.clock, s.epoch)
    && Spaced(s.log)
    && RepliesOk(s.replies, s.rows, s.log, s.epoch)
  }

  // ---- every step keeps it ----------------------------------------------------------------------

  lemma CheckKeeps(s: State, c: nat)
    requires Inv(s) && Enabled(s, Check(c))
    ensures Inv(Next(s, Check(c)))
  {
    var client, s' := s.clients[c], Next(s, Check(c));
    if client.key in s.rows && s.rows[client.key].hash == client.hash {
      var i: nat :| RowOf(s.rows, s.log, client.key, i);
      var r := Reply(client.key, client.hash, s.rows[client.key].response, s.epoch);
      assert Repeats(s.log, r, i);
      assert ReplyOk(r, s.rows, s.log, s.epoch);
      assert RepliesOk(s'.replies, s.rows, s.log, s.epoch);
    }
  }

  lemma OldRepliesStay(s: State, commit: Commit, row: Row)
    requires Inv(s) && commit.key !in s.rows && commit.epoch == s.epoch
    ensures RepliesOk(s.replies, s.rows[commit.key := row], s.log + [commit], s.epoch)
  {
    forall r | r in s.replies ensures ReplyOk(r, s.rows[commit.key := row], s.log + [commit], s.epoch) {
      assert ReplyOk(r, s.rows, s.log, s.epoch);
      var i: nat :| Repeats(s.log, r, i);
      assert Repeats(s.log + [commit], r, i);
    }
  }

  lemma NewRowOk(s: State, commit: Commit)
    requires Inv(s) && commit.key !in s.rows && commit.epoch == s.epoch
    ensures RowsOk(s.rows[commit.key := Row(commit.hash, commit.response, commit.at + TTL_HOURS)], s.log + [commit], s.clock, s.epoch)
  {
    var rows, log := s.rows[commit.key := Row(commit.hash, commit.response, commit.at + TTL_HOURS)], s.log + [commit];
    assert RowOf(rows, log, commit.key, |s.log|);
    forall key | key in s.rows ensures exists i: nat :: RowOf(rows, log, key, i) {
      var i: nat :| RowOf(s.rows, s.log, key, i);
      assert RowOf(rows, log, key, i);
    }
  }

  lemma FinishKeeps(s: State, c: nat)
    requires Inv(s) && Enabled(s, Finish(c))
    ensures Inv(Next(s, Finish(c)))
  {
    var client, s' := s.clients[c], Next(s, Finish(c));
    assert PastCheckOk(client, s.rows, s.log, s.clock);
    var commit := Commit(client.key, client.hash, client.phase.response, client.phase.at, s.epoch);
    NewRowOk(s, commit);
    OldRepliesStay(s, commit, s'.rows[client.key]);
    var r := Reply(client.key, client.hash, client.phase.response, s.epoch);
    assert Repeats(s'.log, r, |s.log|);
    assert ReplyOk(r, s'.rows, s'.log, s.epoch);
    forall d | d in s'.clients ensures PastCheckOk(s'.clients[d], s'.rows, s'.log, s'.clock) {
      assert PastCheckOk(s.clients[d], s.rows, s.log, s.clock);
    }
  }

  lemma PurgeKeeps(s: State)
    requires Inv(s)
    ensures Inv(Next(s, Purge))
  {
    var s' := Next(s, Purge);
    forall key | key in s'.rows ensures exists i: nat :: RowOf(s'.rows, s.log, key, i) {
      var i: nat :| RowOf(s.rows, s.log, key, i);
      assert RowOf(s'.rows, s.log, key, i);
    }
    forall i | 0 <= i < |s.log| && s.log[i].key !in s'.rows
      ensures s.log[i].at + TTL_HOURS < s.clock
    {
      if s.log[i].key in s.rows {
        var k: nat :| RowOf(s.rows, s.log, s.log[i].key, k);
        assert i <= k;
      }
    }
    forall r | r in s.replies ensures ReplyOk(r, s'.rows, s.log, s'.epoch) {
      assert ReplyOk(r, s.rows, s.log, s.epoch);
    }
  }

  lemma QuietKeeps(s: State, e: Event)
    requires Inv(s) && Enabled(s, e) && !e.Check? && !e.Finish? && !e.Purge?
    ensures Inv(Next(s, e))
  {
    var s' := Next(s, e);
    forall c | c in s'.clients ensures PastCheckOk(s'.clients[c], s.rows, s.log, s'.clock) {
      assert c in s.clients ==> PastCheckOk(s.clients[c], s.rows, s.log, s.clock);
    }
  }

  lemma StepKeeps(s: State, e: Event)
    requires Inv(s)
    ensures Inv(Apply(s, e))
  {
    if Enabled(s, e) {
      match e
      case Check(c) => CheckKeeps(s, c);
      case Finish(c) => FinishKeeps(s, c);
      case Purge => PurgeKeeps(s);
      case _ => QuietKeeps(s, e);
    }
  }

  lemma {:induction false} RunKeeps(s: State, events: seq<Event>)
    requires Inv(s)
    ensures Inv(Run(s, events))
  {
    if events != [] {
      RunKeeps(s, events[..|events| - 1]);
      StepKeeps(Run(s, events[..|events| - 1]), events[|events| - 1]);
    }
  }

  lemma InitiallySound()
    ensures Inv(INITIAL)
  {
  }

  // ---- what clients can rely on -----------------------------------------------------------------

  /** In any interleaving, work under one key is committed at most once between two purges, and at
      most once within the time to live. */
  lemma AtMostOneEffect(events: seq<Event>, i: nat, j: nat)
    requires var log := Run(INITIAL, events).log;
             i < j < |log| && log[i].key == log[j].key
    ensures var log := Run(INITIAL, events).log;
            log[i].epoch < log[j].epoch && log[j].at - log[i].at > TTL_HOURS
  {
    InitiallySound();
    RunKeeps(INITIAL, events);
  }

  /** Every success a client is told repeats committed work with the client's own request body, and all
      successes told for a key between two purges are the same. */
  lemma RepliesAgree(events: seq<Event>, a: Reply, b: Reply)
    requires a in Run(INITIAL, events).replies && b in Run(INITIAL, events).replies
    ensures exists c | c in Run(INITIAL, events).log :: c.key == a.key && c.hash == a.hash && c.response == a.response
    ensures a.key == b.key && a.epoch == b.epoch ==> a.response == b.response && a.hash == b.hash
  {
    InitiallySound();
    RunKeeps(INITIAL, events);
    var s := Run(INITIAL, events);
    var i: nat :| Repeats(s.log, a, i);
    var k: nat :| Repeats(s.log, b, k);
    assert s.log[i] in s.log;
  }

  /** A step commits work only at a client's finish; a request with another body is refused, and work
      that fails is dropped, both without a trace in the key table or among the effects. */
  lemma OnlyFinishHasEffects(s: State, e: Event)
    requires Inv(s) && Enabled(s, e)
    ensures !e.Finish? ==> Next(s, e).log == s.log
    ensures !e.Finish? && !e.Purge? ==> Next(s, e).rows == s.rows
    ensures e.Finish? ==> |Next(s, e).log| == |s.log| + 1 && Next(s, e).clients[e.client].phase.Succeeded?
    ensures e.Check? && s.clients[e.client].key in s.rows ==>
              (Next(s, e).clients[e.client].phase.Refused? <==> s.rows[s.clients[e.client].key].hash != s.clients[e.client].hash)
    ensures e.Work? && e.outcome.None? ==>
              s.clients[e.client].key !in Next(s, e).rows && LockIsFree(Next(s, e), s.clients[e.client].key)
  {
  }
}
