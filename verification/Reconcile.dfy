/** Applying commits: any number of clients commit and then queue a request, one worker takes the
    requests in turn and applies whatever configuration is committed when it gets to read it. Some
    manager requests generate by themselves, one at a time and without the queue. Whoever generates
    writes the same temporary file and then puts it in place. */
module Reconcile {
  import opened Wrappers

  const CAPACITY := 16

  /** What a client is at: its commit is made, its request is queued, it has its answer or has given up. */
  datatype Client = Committed | Waiting | Answered(applied: bool) | TimedOut

  datatype Request = Request(version: nat, client: Client, channel: seq<bool>, sends: nat)

  /** Who generates: the worker for the queue, or a manager request. */
  datatype Party = Queue | Manager

  datatype Worker =
    | Idle
    | Taken(id: nat)
    | Read(id: nat, version: nat)
    | Wrote(id: nat)
    | Generated(id: nat)
    | Finished(id: nat, applied: bool)

  /** What a manager request is at: it generates nothing, has its snapshot, or has written the temporary file. */
  datatype Direct = Away | Holds(version: nat) | Put

  /** `wanted` is the latest version committed by a client that goes on to queue a request, `read` the
      version last read by the worker, `written` whether its latest attempt has got as far as replacing
      the file. `temp` is the version last written to the temporary file, which is `there` or not. */
  datatype State = State(
    committed: nat, wanted: nat, requests: map<nat, Request>, queue: seq<nat>, worker: Worker,
    read: nat, written: bool, direct: Direct, temp: nat, there: bool, generated: nat, running: bool, loaded: nat)

  /** Reload, or restart when that fails; the routing clean-up after it may fail. */
  datatype Loading = Loads | Fails | LoadsWithError

  datatype Step =
    | Commit(id: nat)          // a client commits and is going to have it applied
    | CommitOnly               // a commit nobody asks to apply, such as a failure count
    | Enqueue(id: nat)
    | Take
    | ReadLatest(who: Party)    // the snapshot of the committed configuration
    | WriteTemp(who: Party, ok: bool)
    | Replace(who: Party, outcome: Replacement)
    | Load(loading: Loading)
    | Panic
    | Send
    | Receive(id: nat)
    | TimeOut(id: nat)
    | DirectLoad
    | Start                    // the core comes up with the generated file
    | Stop

  function Initial(version: nat, running: bool): State
  {
    State(version, version, map[], [], Idle, version, true, Away, version, false, version, running, version)
  }

  /** The snapshot somebody has taken and not written yet. */
  predicate Holding(s: State, who: Party)
  {
    if who.Queue? then s.worker.Read? else s.direct.Holds?
  }

  function Held(s: State, who: Party): nat
    requires Holding(s, who)
  {
    if who.Queue? then s.worker.version else s.direct.version
  }

  predicate Enabled(s: State, step: Step)
  {
    match step
    case Commit(id) => id !in s.requests
    case CommitOnly => true
    case Enqueue(id) => id in s.requests && s.requests[id].client.Committed? && |s.queue| < CAPACITY
    case Take => s.worker.Idle? && s.queue != []
    case ReadLatest(who) => if who.Queue? then s.worker.Taken? else s.direct.Away?
    case WriteTemp(who, _) => Holding(s, who)
    case Replace(who, outcome) =>
      (if who.Queue? then s.worker.Wrote? else s.direct.Put?) && (outcome.KeptWithError? || s.there)
    case Load(_) => s.worker.Generated?
    case Panic => s.worker.Taken? || s.worker.Read? || s.worker.Wrote? || s.worker.Generated?
    case Send => s.worker.Finished? && s.worker.id in s.requests && |s.requests[s.worker.id].channel| < 1
    case Receive(id) => id in s.requests && s.requests[id].client.Waiting? && s.requests[id].channel != []
    case TimeOut(id) => id in s.requests && s.requests[id].client.Waiting?
    case DirectLoad => s.running
    case Start => !s.running
    case Stop => s.running
  }

  predicate OfClient(step: Step)
  {
    step.Commit? || step.Enqueue? || step.Receive? || step.TimeOut?
  }

  predicate OfWorker(step: Step)
  {
    || step.Take? || step.Load? || step.Panic? || step.Send?
    || ((step.ReadLatest? || step.WriteTemp? || step.Replace?) && step.who.Queue?)
  }

  function AfterClient(s: State, step: Step): State
    requires Enabled(s, step) && OfClient(step)
  {
    match step
    case Commit(id) =>
      var v := s.committed + 1;
      s.(committed := v, wanted := v, requests := s.requests[id := Request(v, Committed, [], 0)])
    case Enqueue(id) =>
      s.(queue := s.queue + [id], requests := s.requests[id := s.requests[id].(client := Waiting)])
    case Receive(id) =>
      var r := s.requests[id];
      s.(requests := s.requests[id := r.(client := Answered(r.channel[0]), channel := r.channel[1..])])
    case TimeOut(id) => s.(requests := s.requests[id := s.requests[id].(client := TimedOut)])
  }

  function AfterWorker(s: State, step: Step): State
    requires Enabled(s, step) && OfWorker(step)
  {
    match step
    case Take => s.(queue := s.queue[1..], worker := Taken(s.queue[0]))
    case ReadLatest(_) => s.(worker := Read(s.worker.id, s.committed), read := s.committed, written := false)
    case WriteTemp(_, ok) =>
      if ok then s.(worker := Wrote(s.worker.id), temp := s.worker.version, there := true)
      else s.(worker := Finished(s.worker.id, false))
    case Replace(_, outcome) =>
      InPlace(s, outcome).(worker := if outcome.Replaced? then Generated(s.worker.id) else Finished(s.worker.id, false),
                           written := !outcome.KeptWithError?)
    case Load(loading) =>
      if !s.running then s.(worker := Finished(s.worker.id, true))
      else s.(worker := Finished(s.worker.id, loading.Loads?), loaded := if loading.Fails? then s.loaded else s.generated)
    case Panic => s.(worker := Finished(s.worker.id, false), written := s.worker.Generated?)
    case Send =>
      var r := s.requests[s.worker.id];
      s.(worker := Idle,
         requests := s.requests[s.worker.id := r.(channel := r.channel + [s.worker.applied], sends := r.sends + 1)])
  }

  /** The temporary file is gone in any case; who put it in place need not be who wrote it. */
  function InPlace(s: State, outcome: Replacement): State
  {
    s.(generated := if outcome.KeptWithError? then s.generated else s.temp, there := false)
  }

  function AfterOther(s: State, step: Step): State
    requires Enabled(s, step) && !OfClient(step) && !OfWorker(step)
  {
    match step
    case CommitOnly => s.(committed := s.committed + 1)
    case ReadLatest(_) => s.(direct := Holds(s.committed))
    case WriteTemp(_, ok) =>
      if ok then s.(direct := Put, temp := s.direct.version, there := true) else s.(direct := Away)
    case Replace(_, outcome) => InPlace(s, outcome).(direct := Away)
    case DirectLoad => s.(loaded := s.generated)
    case Start => s.(running := true, loaded := s.generated)
    case Stop => s.(running := false)
  }

  function After(s: State, step: Step): State
    requires Enabled(s, step)
  {
    if OfClient(step) then AfterClient(s, step)
    else if OfWorker(step) then AfterWorker(s, step)
    else AfterOther(s, step)
  }

  /** Every interleaving: a start state and one step after the other. */
  ghost predicate Run(states: seq<State>, steps: seq<Step>)
  {
    && |states| == |steps| + 1
    && (exists version, running :: states[0] == Initial(version, running))
    && forall i | 0 <= i < |steps| :: Enabled(states[i], steps[i]) && states[i + 1] == After(states[i], steps[i])
  }

  // ---- who reads and writes when ----

  predicate IsCommit(step: Step)
  {
    step.Commit? || step.CommitOnly?
  }

  ghost predicate CommitBetween(steps: seq<Step>, i: nat, j: nat)
  {
    exists c | i < c < j && c < |steps| :: IsCommit(steps[c])
  }

  predicate WritesTemp(step: Step)
  {
    step.WriteTemp? && step.ok
  }

  predicate Replaces(step: Step)
  {
    step.Replace? && !step.outcome.KeptWithError?
  }

  /** Step w writes the temporary file from the snapshot taken at step r. */
  ghost predicate Written(steps: seq<Step>, r: nat, w: nat)
  {
    && r < w < |steps| && steps[r].ReadLatest? && WritesTemp(steps[w]) && steps[w].who == steps[r].who
    && forall k | r < k < w :: steps[k] != steps[r]
  }

  /** Step p puts in place what step w wrote from the snapshot of step r. */
  ghost predicate Placed(steps: seq<Step>, r: nat, w: nat, p: nat)
  {
    && Written(steps, r, w) && w < p < |steps| && Replaces(steps[p])
    && forall k | w < k < p :: !WritesTemp(steps[k]) && !steps[k].Replace?
  }

  /** Before step n somebody has read before a commit and written the temporary file after somebody who had
      read after that commit. */
  ghost predicate Overtaken(steps: seq<Step>, n: nat)
  {
    exists r: nat, w: nat, r': nat, w': nat ::
      Written(steps, r, w) && Written(steps, r', w') && CommitBetween(steps, r, r') && w' < w < n
  }

  /** The same of what was put in place. */
  ghost predicate FileOvertaken(steps: seq<Step>)
  {
    exists r: nat, w: nat, p: nat, r': nat, w': nat, p': nat ::
      Placed(steps, r, w, p) && Placed(steps, r', w', p') && CommitBetween(steps, r, r') && p' < p
  }

  // ---- what every step keeps ----

  /** The step writes an older snapshot over a newer one. */
  predicate IsStale(s: State, step: Step)
    requires Enabled(s, step)
  {
    WritesTemp(step) && Held(s, step.who) < s.temp
  }

  /** Queued, or taken by the worker and not answered yet. */
  predicate Pending(s: State, id: nat)
  {
    id in s.queue || (!s.worker.Idle? && s.worker.id == id)
  }

  ghost predicate RequestOk(s: State, id: nat)
    requires id in s.requests
  {
    var r := s.requests[id];
    && r.version <= s.committed
    && |r.channel| <= r.sends <= 1
    && (r.client.Committed? ==> r.sends == 0 && !Pending(s, id))
    && (r.client.Waiting? ==> |r.channel| == r.sends)
    && (!r.client.Committed? ==> (Pending(s, id) <==> r.sends == 0))
    && (r.client.Answered? ==> r.sends == 1)
  }

  ghost predicate QueueOk(s: State)
  {
    && |s.queue| <= CAPACITY
    && (forall i | 0 <= i < |s.queue| :: s.queue[i] in s.requests)
    && (forall i, j | 0 <= i < j < |s.queue| :: s.queue[i] != s.queue[j])
    && (!s.worker.Idle? ==> s.worker.id in s.requests && s.worker.id !in s.queue)
  }

  /** A commit the worker has not read yet will be asked for again. */
  ghost predicate Unread(s: State)
  {
    || s.queue != [] || s.worker.Taken?
    || exists id | id in s.requests :: s.requests[id].client.Committed?
  }

  ghost predicate VersionsOk(s: State)
  {
    && s.temp <= s.committed && s.read <= s.committed && s.wanted <= s.committed
    && s.loaded <= s.generated <= s.temp
    && (s.direct.Holds? ==> s.direct.version <= s.committed)
    && (s.written ==> s.read <= s.generated)
    && (s.worker.Read? ==> s.worker.version == s.read && !s.written)
    && (s.worker.Wrote? ==> s.read <= s.temp && !s.written)
    && (s.worker.Generated? ==> s.written)
    && (s.wanted > s.read && (s.written || s.worker.Read? || s.worker.Wrote?) ==> Unread(s))
  }

  /** An applied request has its commit, or a later one, in the generated file and in the core. */
  ghost predicate AppliedOk(s: State, id: nat)
    requires id in s.requests
  {
    var r := s.requests[id];
    && (true in r.channel || r.client == Answered(true) ==> r.version <= s.generated && (s.running ==> r.version <= s.loaded))
    && (s.worker == Finished(id, true) ==> r.version <= s.generated && (s.running ==> r.version <= s.loaded))
    && ((s.worker.Read? || s.worker.Wrote? || s.worker.Generated?) && s.worker.id == id ==> r.version <= s.read)
  }

  /** What holds of the requests, whoever generates what. */
  ghost predicate RequestsOk(s: State)
  {
    QueueOk(s) && forall id | id in s.requests :: RequestOk(s, id)
  }

  /** What holds of the versions as long as no older snapshot is written over a newer one. */
  ghost predicate Inv(s: State)
  {
    RequestsOk(s) && VersionsOk(s) && forall id | id in s.requests :: AppliedOk(s, id)
  }

  lemma InitialOk(version: nat, running: bool)
    ensures Inv(Initial(version, running))
  {
  }

  lemma ClientKeepsQueue(s: State, step: Step)
    requires RequestsOk(s) && Enabled(s, step) && OfClient(step)
    ensures QueueOk(AfterClient(s, step))
  {
  }

  lemma WorkerKeepsQueue(s: State, step: Step)
    requires RequestsOk(s) && Enabled(s, step) && OfWorker(step)
    ensures QueueOk(AfterWorker(s, step))
  {
    hide RequestOk;
  }

  lemma ClientKeepsRequest(s: State, step: Step, id: nat)
    requires RequestsOk(s) && Enabled(s, step) && OfClient(step) && id in AfterClient(s, step).requests
    ensures RequestOk(AfterClient(s, step), id)
  {
    if id in s.requests {
      assert RequestOk(s, id);
    }
  }

  lemma SendKeepsRequest(s: State, id: nat)
    requires RequestsOk(s) && Enabled(s, Send) && id in s.requests
    ensures RequestOk(AfterWorker(s, Send), id)
  {
    assert RequestOk(s, id);
  }

  lemma WorkerKeepsRequest(s: State, step: Step, id: nat)
    requires RequestsOk(s) && Enabled(s, step) && OfWorker(step) && id in AfterWorker(s, step).requests
    ensures RequestOk(AfterWorker(s, step), id)
  {
    if step.Send? {
      SendKeepsRequest(s, id);
    } else {
      var t := AfterWorker(s, step);
      assert t.requests == s.requests && t.committed == s.committed;
      assert Pending(t, id) <==> Pending(s, id);
      hide AfterWorker, Enabled, Pending;
      assert RequestOk(s, id);
    }
  }

  lemma OtherKeepsRequests(s: State, step: Step)
    requires RequestsOk(s) && Enabled(s, step) && !OfClient(step) && !OfWorker(step)
    ensures RequestsOk(AfterOther(s, step))
  {
    var t := AfterOther(s, step);
    assert t.requests == s.requests && t.queue == s.queue && t.worker == s.worker;
    forall id | id in t.requests
      ensures RequestOk(t, id)
    {
      assert RequestOk(s, id);
    }
  }

  lemma RequestsKept(s: State, step: Step)
    requires RequestsOk(s) && Enabled(s, step)
    ensures RequestsOk(After(s, step))
  {
    hide QueueOk, RequestOk, Enabled, AfterClient, AfterWorker, AfterOther;
    if OfClient(step) {
      ClientKeepsQueue(s, step);
      forall id | id in AfterClient(s, step).requests
        ensures RequestOk(AfterClient(s, step), id)
      {
        ClientKeepsRequest(s, step, id);
      }
    } else if OfWorker(step) {
      WorkerKeepsQueue(s, step);
      forall id | id in AfterWorker(s, step).requests
        ensures RequestOk(AfterWorker(s, step), id)
      {
        WorkerKeepsRequest(s, step, id);
      }
    } else {
      OtherKeepsRequests(s, step);
    }
  }

  lemma ClientKeepsVersions(s: State, step: Step)
    requires Inv(s) && Enabled(s, step) && OfClient(step)
    ensures VersionsOk(AfterClient(s, step))
  {
    hide AppliedOk, RequestOk;
    var t := AfterClient(s, step);
    assert step.Enqueue? ==> |t.queue| > 0;
    if step.Commit? {
      assert t.requests[step.id].client.Committed?;
    } else if Unread(s) {
      UnreadStays(s, t, step);
    }
  }

  lemma UnreadStays(s: State, t: State, step: Step)
    requires Enabled(s, step) && t == After(s, step)
    requires Unread(s) && step != ReadLatest(Queue) && !(step.Panic? && s.worker.Taken?)
    ensures Unread(t)
  {
    if s.queue == [] && !s.worker.Taken? {
      var id :| id in s.requests && s.requests[id].client.Committed?;
      if step == Enqueue(id) {
        assert t.queue == [id];
      } else {
        StaysCommitted(s, step, id);
      }
    }
  }

  lemma StaysCommitted(s: State, step: Step, id: nat)
    requires Enabled(s, step) && step != Enqueue(id) && id in s.requests && s.requests[id].client.Committed?
    ensures id in After(s, step).requests && After(s, step).requests[id].client.Committed?
  {
  }

  lemma WorkerKeepsVersions(s: State, step: Step)
    requires Inv(s) && Enabled(s, step) && OfWorker(step) && !IsStale(s, step)
    ensures VersionsOk(AfterWorker(s, step))
  {
    if Unread(s) && step != ReadLatest(Queue) && !(step.Panic? && s.worker.Taken?) {
      UnreadStays(s, After(s, step), step);
    }
    hide AppliedOk, RequestOk, RequestsOk, Unread;
  }

  lemma OtherKeepsVersions(s: State, step: Step)
    requires Inv(s) && Enabled(s, step) && !OfClient(step) && !OfWorker(step) && !IsStale(s, step)
    ensures VersionsOk(AfterOther(s, step))
  {
    hide AppliedOk, RequestOk, RequestsOk;
  }

  lemma VersionsKept(s: State, step: Step)
    requires Inv(s) && Enabled(s, step) && !IsStale(s, step)
    ensures VersionsOk(After(s, step))
  {
    hide Inv, VersionsOk, AfterClient, AfterWorker, AfterOther, Enabled, IsStale;
    if OfClient(step) {
      ClientKeepsVersions(s, step);
    } else if OfWorker(step) {
      WorkerKeepsVersions(s, step);
    } else {
      OtherKeepsVersions(s, step);
    }
  }

  lemma ClientKeepsApplied(s: State, step: Step, id: nat)
    requires Inv(s) && Enabled(s, step) && OfClient(step) && id in AfterClient(s, step).requests
    ensures AppliedOk(AfterClient(s, step), id)
  {
    hide Unread, Pending;
    if id in s.requests {
      assert AppliedOk(s, id) && RequestOk(s, id);
    }
  }

  lemma SendKeepsApplied(s: State, id: nat)
    requires Inv(s) && Enabled(s, Send) && id in s.requests
    ensures AppliedOk(AfterWorker(s, Send), id)
  {
    hide Unread, Pending;
    assert AppliedOk(s, id);
  }

  lemma LoadKeepsApplied(s: State, loading: Loading, id: nat)
    requires Inv(s) && Enabled(s, Load(loading)) && id in s.requests
    ensures AppliedOk(AfterWorker(s, Load(loading)), id)
  {
    hide Unread, RequestsOk;
    assert AppliedOk(s, id);
  }

  lemma WorkerKeepsApplied(s: State, step: Step, id: nat)
    requires Inv(s) && Enabled(s, step) && OfWorker(step) && !IsStale(s, step) && id in AfterWorker(s, step).requests
    ensures AppliedOk(AfterWorker(s, step), id)
  {
    if step.Send? {
      SendKeepsApplied(s, id);
    } else if step.Load? {
      LoadKeepsApplied(s, step.loading, id);
    } else {
      hide Unread, QueueOk, Pending;
      assert AppliedOk(s, id) && RequestOk(s, id);
      hide RequestsOk, RequestOk;
      var t := AfterWorker(s, step);
      assert t.requests == s.requests && t.running == s.running && t.loaded == s.loaded && s.generated <= t.generated;
    }
  }

  lemma OtherKeepsApplied(s: State, step: Step, id: nat)
    requires Inv(s) && Enabled(s, step) && !OfClient(step) && !OfWorker(step) && !IsStale(s, step)
    requires id in AfterOther(s, step).requests
    ensures AppliedOk(AfterOther(s, step), id)
  {
    hide Unread, Pending, QueueOk;
    assert AppliedOk(s, id) && RequestOk(s, id);
  }

  lemma AppliedKept(s: State, step: Step, id: nat)
    requires Inv(s) && Enabled(s, step) && !IsStale(s, step) && id in After(s, step).requests
    ensures AppliedOk(After(s, step), id)
  {
    hide Inv, Enabled, AppliedOk, AfterClient, AfterWorker, AfterOther;
    if OfClient(step) {
      ClientKeepsApplied(s, step, id);
    } else if OfWorker(step) {
      WorkerKeepsApplied(s, step, id);
    } else {
      OtherKeepsApplied(s, step, id);
    }
  }

  lemma StepKeepsInv(s: State, step: Step)
    requires Inv(s) && Enabled(s, step) && !IsStale(s, step)
    ensures Inv(After(s, step))
  {
    hide RequestsOk, VersionsOk, AppliedOk;
    RequestsKept(s, step);
    VersionsKept(s, step);
    forall id | id in After(s, step).requests
      ensures AppliedOk(After(s, step), id)
    {
      AppliedKept(s, step, id);
    }
  }

  lemma {:induction false} RunKeepsRequests(states: seq<State>, steps: seq<Step>, i: nat)
    requires Run(states, steps) && i <= |steps|
    ensures RequestsOk(states[i])
  {
    hide RequestsOk, Enabled, After;
    if i == 0 {
      var version, running :| states[0] == Initial(version, running);
      InitialOk(version, running);
    } else {
      RunKeepsRequests(states, steps, i - 1);
      RequestsKept(states[i - 1], steps[i - 1]);
    }
  }

  // ---- where a version comes from ----

  lemma StepCommits(s: State, step: Step)
    requires Enabled(s, step)
    ensures After(s, step).committed == s.committed + if IsCommit(step) then 1 else 0
  {
  }

  /** Versions count commits: the version grows exactly if there is one. */
  lemma {:induction false} CommitsCount(states: seq<State>, steps: seq<Step>, i: nat, j: nat)
    requires Run(states, steps) && i <= j <= |steps|
    ensures states[i].committed <= states[j].committed
    ensures states[i].committed < states[j].committed <==> exists c | i <= c < j :: IsCommit(steps[c])
    decreases j
  {
    hide Enabled, After, IsCommit;
    if i < j {
      CommitsCount(states, steps, i, j - 1);
      StepCommits(states[j - 1], steps[j - 1]);
    }
  }

  lemma NewerRead(states: seq<State>, steps: seq<Step>, r: nat, r': nat)
    requires Run(states, steps) && r < |steps| && r' < |steps| && steps[r].ReadLatest? && steps[r'].ReadLatest?
    ensures states[r].committed < states[r'].committed <==> CommitBetween(steps, r, r')
  {
    hide Enabled, After;
    if r < r' {
      CommitsCount(states, steps, r, r');
      assert !IsCommit(steps[r]);
    } else {
      CommitsCount(states, steps, r', r);
    }
  }

  lemma StepHolds(s: State, step: Step, who: Party)
    requires Enabled(s, step) && Holding(After(s, step), who)
    ensures step == ReadLatest(who) ==> Held(After(s, step), who) == s.committed
    ensures step != ReadLatest(who) ==> Holding(s, who) && Held(After(s, step), who) == Held(s, who)
  {
  }

  /** Whoever holds a snapshot has taken it at its last read. */
  lemma {:induction false} HeldSince(states: seq<State>, steps: seq<Step>, i: nat, who: Party) returns (r: nat)
    requires Run(states, steps) && i <= |steps| && Holding(states[i], who)
    ensures r < i && steps[r] == ReadLatest(who) && Held(states[i], who) == states[r].committed
    ensures forall k | r < k < i :: steps[k] != steps[r]
  {
    hide Enabled, After;
    assert i > 0;
    StepHolds(states[i - 1], steps[i - 1], who);
    if steps[i - 1] == ReadLatest(who) {
      r := i - 1;
    } else {
      r := HeldSince(states, steps, i - 1, who);
    }
  }

  lemma WrittenIsHeld(states: seq<State>, steps: seq<Step>, r: nat, w: nat)
    requires Run(states, steps) && Written(steps, r, w)
    ensures Holding(states[w], steps[w].who) && Held(states[w], steps[w].who) == states[r].committed
    ensures states[w + 1].temp == states[r].committed
  {
    var last := HeldSince(states, steps, w, steps[w].who);
    assert last == r;
  }

  lemma WriteHasRead(states: seq<State>, steps: seq<Step>, w: nat) returns (r: nat)
    requires Run(states, steps) && w < |steps| && WritesTemp(steps[w])
    ensures Written(steps, r, w)
  {
    r := HeldSince(states, steps, w, steps[w].who);
  }

  lemma StepTemp(s: State, step: Step)
    requires Enabled(s, step)
    ensures After(s, step).temp == if WritesTemp(step) then Held(s, step.who) else s.temp
    ensures After(s, step).there <==> WritesTemp(step) || (s.there && !step.Replace?)
  {
  }

  lemma StepPlaces(s: State, step: Step)
    requires Enabled(s, step)
    ensures After(s, step).generated == if Replaces(step) then s.temp else s.generated
    ensures Replaces(step) ==> s.there
  {
  }

  /** The temporary file has been written by the last write, or never. */
  lemma {:induction false} TempWritten(states: seq<State>, steps: seq<Step>, i: nat) returns (any: bool, w: nat)
    requires Run(states, steps) && i <= |steps|
    ensures any ==> w < i && WritesTemp(steps[w]) && states[i].temp == states[w + 1].temp
    ensures any ==> forall k | w < k < i :: !WritesTemp(steps[k])
    ensures any && states[i].there ==> forall k | w < k < i :: !steps[k].Replace?
    ensures !any ==> states[i].temp == states[0].committed && !states[i].there
  {
    hide Enabled, After;
    if i == 0 {
      return false, 0;
    }
    StepTemp(states[i - 1], steps[i - 1]);
    if WritesTemp(steps[i - 1]) {
      return true, i - 1;
    }
    any, w := TempWritten(states, steps, i - 1);
  }

  /** Putting a file in place makes it that of the snapshot the temporary file was written from. */
  lemma PlacesSnapshot(states: seq<State>, steps: seq<Step>, p: nat) returns (r: nat, w: nat)
    requires Run(states, steps) && p < |steps| && Replaces(steps[p])
    ensures Placed(steps, r, w, p) && states[p + 1].generated == states[r].committed
  {
    hide Enabled, After;
    StepPlaces(states[p], steps[p]);
    var any;
    any, w := TempWritten(states, steps, p);
    r := WriteHasRead(states, steps, w);
    WrittenIsHeld(states, steps, r, w);
  }

  lemma PlacedIsGenerated(states: seq<State>, steps: seq<Step>, r: nat, w: nat, p: nat)
    requires Run(states, steps) && Placed(steps, r, w, p)
    ensures states[p + 1].generated == states[r].committed
  {
    hide Enabled, After;
    var r', w' := PlacesSnapshot(states, steps, p);
    assert w' == w;
    assert r' == r;
  }

  /** The file is what was put in place last, or what was there to begin with. */
  lemma {:induction false} LastPlaced(states: seq<State>, steps: seq<Step>, i: nat)
      returns (any: bool, r: nat, w: nat, p: nat)
    requires Run(states, steps) && i <= |steps|
    ensures any ==> Placed(steps, r, w, p) && p < i && forall k | p < k < i :: !Replaces(steps[k])
    ensures any ==> states[i].generated == states[r].committed
    ensures !any ==> states[i].generated == states[0].committed && forall k | 0 <= k < i :: !Replaces(steps[k])
  {
    hide Enabled, After, Placed;
    if i == 0 {
      return false, 0, 0, 0;
    }
    StepPlaces(states[i - 1], steps[i - 1]);
    if Replaces(steps[i - 1]) {
      r, w := PlacesSnapshot(states, steps, i - 1);
      return true, r, w, i - 1;
    }
    any, r, w, p := LastPlaced(states, steps, i - 1);
  }

  // ---- never going back ----

  ghost predicate FileGoesBack(states: seq<State>)
  {
    exists i, j | 0 <= i <= j < |states| :: states[j].generated < states[i].generated
  }

  ghost predicate CoreGoesBack(states: seq<State>)
  {
    exists i, j | 0 <= i <= j < |states| :: states[j].loaded < states[i].loaded
  }

  lemma {:induction false} StepBack(states: seq<State>, i: nat, j: nat) returns (k: nat)
    requires i <= j < |states| && states[j].generated < states[i].generated
    ensures k + 1 < |states| && states[k + 1].generated < states[k].generated
  {
    if states[j].generated < states[j - 1].generated {
      k := j - 1;
    } else {
      k := StepBack(states, i, j - 1);
    }
  }

  lemma GoesBackOvertaken(states: seq<State>, steps: seq<Step>, p: nat)
    requires Run(states, steps) && p < |steps| && states[p + 1].generated < states[p].generated
    ensures FileOvertaken(steps)
  {
    hide Enabled, After, Placed, CommitBetween;
    StepPlaces(states[p], steps[p]);
    var r, w := PlacesSnapshot(states, steps, p);
    var any, r', w', p' := LastPlaced(states, steps, p);
    if any {
      ReadOf(steps, r, w, p);
      ReadOf(steps, r', w', p');
      NewerRead(states, steps, r, r');
    } else {
      ReadOf(steps, r, w, p);
      CommitsCount(states, steps, 0, r);
    }
  }

  lemma ReadOf(steps: seq<Step>, r: nat, w: nat, p: nat)
    requires Placed(steps, r, w, p)
    ensures r < w < p < |steps| && steps[r].ReadLatest?
  {
  }

  /** An old configuration overwrites a new one, along a run, if and only if a file read before a commit is
      put in place after one read after that commit. If none does, the core never goes back either. */
  lemma GoesBackExactly(states: seq<State>, steps: seq<Step>)
    requires Run(states, steps)
    ensures FileGoesBack(states) <==> FileOvertaken(steps)
    ensures CoreGoesBack(states) ==> FileOvertaken(steps)
  {
    hide Enabled, After, Placed, CommitBetween;
    if FileGoesBack(states) {
      var i, j :| 0 <= i <= j < |states| && states[j].generated < states[i].generated;
      var p := StepBack(states, i, j);
      GoesBackOvertaken(states, steps, p);
    } else if CoreGoesBack(states) {
      var i, j :| 0 <= i <= j < |states| && states[j].loaded < states[i].loaded;
      CoreFollows(states, steps, i, j);
    }
    if FileOvertaken(steps) {
      OvertakenGoesBack(states, steps);
    }
  }

  lemma OvertakenGoesBack(states: seq<State>, steps: seq<Step>)
    requires Run(states, steps) && FileOvertaken(steps)
    ensures FileGoesBack(states)
  {
    hide Enabled, After, Placed, CommitBetween;
    var r: nat, w: nat, p: nat, r': nat, w': nat, p': nat :|
      Placed(steps, r, w, p) && Placed(steps, r', w', p') && CommitBetween(steps, r, r') && p' < p;
    ReadOf(steps, r, w, p);
    ReadOf(steps, r', w', p');
    NewerRead(states, steps, r, r');
    PlacedIsGenerated(states, steps, r, w, p);
    PlacedIsGenerated(states, steps, r', w', p');
    assert states[p + 1].generated < states[p' + 1].generated;
  }

  lemma StepLoads(s: State, step: Step)
    requires Enabled(s, step)
    ensures After(s, step).loaded == s.loaded || (After(s, step).loaded == s.generated == After(s, step).generated)
  {
  }

  lemma {:induction false} CoreFollows(states: seq<State>, steps: seq<Step>, i: nat, j: nat)
    requires Run(states, steps) && i <= j <= |steps| && !FileGoesBack(states)
    ensures states[i].loaded <= states[j].loaded <= states[j].generated
    decreases j
  {
    hide Enabled, After;
    if j > 0 {
      CoreFollows(states, steps, if i < j then i else j - 1, j - 1);
      StepLoads(states[j - 1], steps[j - 1]);
      assert states[j - 1].generated <= states[j].generated;
    }
  }

  /** A commit is in the file exactly if what was put in place last had been read after it. */
  lemma InFileExactly(states: seq<State>, steps: seq<Step>, i: nat, c: nat, r: nat, w: nat, p: nat)
    requires Run(states, steps) && i <= |steps| && c < i && IsCommit(steps[c])
    requires Placed(steps, r, w, p) && p < i && forall k | p < k < i :: !Replaces(steps[k])
    ensures states[c + 1].committed <= states[i].generated <==> c < r
  {
    hide Enabled, After;
    var any, r', w', p' := LastPlaced(states, steps, i);
    assert any && p' == p && w' == w && r' == r;
    if c < r {
      CommitsCount(states, steps, c + 1, r);
    } else {
      CommitsCount(states, steps, r, c);
      StepCommits(states[c], steps[c]);
    }
  }

  // ---- what holds as long as nobody is overtaken ----

  lemma StaleIsOvertaken(states: seq<State>, steps: seq<Step>, i: nat)
    requires Run(states, steps) && i < |steps| && IsStale(states[i], steps[i])
    ensures Overtaken(steps, i + 1)
  {
    hide Enabled, After, CommitBetween;
    var r := WriteHasRead(states, steps, i);
    WrittenIsHeld(states, steps, r, i);
    var any, w' := TempWritten(states, steps, i);
    if any {
      var r' := WriteHasRead(states, steps, w');
      WrittenIsHeld(states, steps, r', w');
      NewerRead(states, steps, r, r');
      assert Written(steps, r, i) && Written(steps, r', w') && CommitBetween(steps, r, r');
    } else {
      CommitsCount(states, steps, 0, r);
    }
  }

  lemma {:induction false} RunKeepsInv(states: seq<State>, steps: seq<Step>, i: nat)
    requires Run(states, steps) && i <= |steps| && !Overtaken(steps, i)
    ensures Inv(states[i])
  {
    hide Inv, Enabled, After, Written, CommitBetween, IsStale;
    if i == 0 {
      var version, running :| states[0] == Initial(version, running);
      InitialOk(version, running);
    } else {
      RunKeepsInv(states, steps, i - 1);
      if IsStale(states[i - 1], steps[i - 1]) {
        StaleIsOvertaken(states, steps, i - 1);
      }
      StepKeepsInv(states[i - 1], steps[i - 1]);
    }
  }

  lemma WrittenInOrder(steps: seq<Step>, r: nat, w: nat, p: nat, r': nat, w': nat, p': nat)
    requires Placed(steps, r, w, p) && Placed(steps, r', w', p') && p' < p
    ensures Written(steps, r, w) && Written(steps, r', w') && w' < w < |steps|
  {
  }

  /** If nothing written is overtaken, nothing put in place is. */
  lemma InOrderNeverGoesBack(steps: seq<Step>)
    requires !Overtaken(steps, |steps|)
    ensures !FileOvertaken(steps)
  {
    hide Placed, Written, CommitBetween;
    forall r: nat, w: nat, p: nat, r': nat, w': nat, p': nat | Placed(steps, r, w, p) && Placed(steps, r', w', p') && p' < p
      ensures !CommitBetween(steps, r, r')
    {
      WrittenInOrder(steps, r, w, p, r', w', p');
    }
  }

  /** If never two snapshots are held at once, nobody is overtaken; so one lock for all generations would do. */
  lemma OneAtATimeIsInOrder(states: seq<State>, steps: seq<Step>, n: nat)
    requires Run(states, steps) && n <= |steps|
    requires forall i | 0 <= i < n :: !(Holding(states[i], Queue) && Holding(states[i], Manager))
    ensures !Overtaken(steps, n)
  {
    hide Enabled, After;
    forall r: nat, w: nat, r': nat, w': nat | Written(steps, r, w) && Written(steps, r', w') && w' < w < n
      ensures !CommitBetween(steps, r, r')
    {
      if r < r' {
        BothHold(states, steps, r, w, r', w');
      }
    }
  }

  lemma BothHold(states: seq<State>, steps: seq<Step>, r: nat, w: nat, r': nat, w': nat)
    requires Run(states, steps) && Written(steps, r, w) && Written(steps, r', w') && r < r' && w' < w
    ensures Holding(states[w'], Queue) && Holding(states[w'], Manager)
  {
    hide Enabled, After;
    HoldsUntil(states, steps, r, w, w');
    WrittenIsHeld(states, steps, r', w');
    OtherParty(steps, r, w, r', w');
  }

  lemma OtherParty(steps: seq<Step>, r: nat, w: nat, r': nat, w': nat)
    requires Written(steps, r, w) && Written(steps, r', w') && r < r' && w' < w
    ensures steps[r].who != steps[r'].who
  {
    assert steps[r] != steps[r'];
  }

  lemma {:induction false} HoldsUntil(states: seq<State>, steps: seq<Step>, r: nat, w: nat, k: nat)
    requires Run(states, steps) && Written(steps, r, w) && r < k <= w
    ensures Holding(states[k], steps[r].who)
    decreases w - k
  {
    hide Enabled, After;
    if k == w {
      WrittenIsHeld(states, steps, r, w);
    } else {
      HoldsUntil(states, steps, r, w, k + 1);
      StepHolds(states[k], steps[k], steps[r].who);
    }
  }

  /** Nor while only the worker generates. */
  lemma WorkerAloneIsInOrder(steps: seq<Step>, n: nat)
    requires n <= |steps| && forall i | 0 <= i < n :: steps[i] != WriteTemp(Manager, true)
    ensures !Overtaken(steps, n)
  {
    forall r: nat, w: nat, r': nat, w': nat | Written(steps, r, w) && Written(steps, r', w') && w' < w < n
      ensures !CommitBetween(steps, r, r')
    {
      if r < r' {
        OtherParty(steps, r, w, r', w');
      }
    }
  }

  // ---- two who meet ----

  lemma Extended(states: seq<State>, steps: seq<Step>, step: Step) returns (longer: seq<State>, more: seq<Step>)
    requires |states| == |steps| + 1 && Run(states, steps) && Enabled(states[|steps|], step)
    ensures |longer| == |more| + 1 && Run(longer, more)
    ensures longer == states + [After(states[|steps|], step)] && more == steps + [step]
  {
    hide Enabled, After;
    longer, more := states + [After(states[|steps|], step)], steps + [step];
    forall i | 0 <= i < |more|
      ensures Enabled(longer[i], more[i]) && longer[i + 1] == After(longer[i], more[i])
    {
      assert i < |steps| ==> longer[i] == states[i] && longer[i + 1] == states[i + 1] && more[i] == steps[i];
    }
  }

  lemma ReadAndQueued() returns (states: seq<State>, steps: seq<Step>)
    ensures Run(states, steps) && |steps| == 3 && |states| == 4
    ensures states[3] == State(1, 1, map[0 := Request(1, Waiting, [], 0)], [0], Idle, 0, true, Holds(0), 0, false, 0,
                               false, 0)
    ensures forall i | 0 <= i <= 3 :: states[i].generated == 0
  {
    states, steps := [Initial(0, false)], [];
    assert Run(states, steps);
    hide Run;
    states, steps := Extended(states, steps, ReadLatest(Manager));
    states, steps := Extended(states, steps, Commit(0));
    states, steps := Extended(states, steps, Enqueue(0));
  }

  lemma RaceToRead() returns (states: seq<State>, steps: seq<Step>)
    ensures Run(states, steps) && |steps| == 5 && |states| == 6
    ensures states[5] == State(1, 1, map[0 := Request(1, Waiting, [], 0)], [], Read(0, 1), 1, false, Holds(0), 0, false, 0,
                               false, 0)
    ensures forall i | 0 <= i <= 5 :: states[i].generated == 0
  {
    hide Run;
    states, steps := ReadAndQueued();
    states, steps := Extended(states, steps, Take);
    states, steps := Extended(states, steps, ReadLatest(Queue));
  }

  /** A manager request has read before the commit that the worker applies, and writes after it. */
  lemma DirectGenerationMayGoBack() returns (states: seq<State>, steps: seq<Step>)
    ensures Run(states, steps) && FileGoesBack(states)
  {
    hide Run;
    states, steps := RaceToRead();
    states, steps := Extended(states, steps, WriteTemp(Queue, true));
    states, steps := Extended(states, steps, Replace(Queue, Replaced));
    states, steps := Extended(states, steps, WriteTemp(Manager, true));
    states, steps := Extended(states, steps, Replace(Manager, Replaced));
    assert states[9].generated < states[7].generated;
  }

  /** Writing in between, it has the worker put its older file in place, and report a commit as applied that is
      not: although the file never goes back. */
  lemma AppliedMayBeMissing() returns (states: seq<State>, steps: seq<Step>)
    ensures Run(states, steps) && |steps| == 11 && |states| == 12 && !FileGoesBack(states)
    ensures 0 in states[11].requests && states[11].requests[0].client == Answered(true)
    ensures states[11].generated < states[11].requests[0].version
  {
    hide Run;
    states, steps := RaceToRead();
    states, steps := Extended(states, steps, WriteTemp(Queue, true));
    states, steps := Extended(states, steps, WriteTemp(Manager, true));
    states, steps := Extended(states, steps, Replace(Queue, Replaced));
    states, steps := Extended(states, steps, Load(Loads));
    states, steps := Extended(states, steps, Send);
    states, steps := Extended(states, steps, Receive(0));
    assert forall i | 0 <= i < |states| :: states[i].generated == 0;
  }

  // ---- what the clients get ----

  /** Once everyone who committed has queued the request, the queue is drained and the worker idle, a
      generation that succeeded has the latest configuration anybody wanted applied; and it is
      the committed one if no other commit came after. */
  lemma SettlesOnTheLatest(states: seq<State>, steps: seq<Step>, i: nat)
    requires Run(states, steps) && i <= |steps| && !Overtaken(steps, i)
    requires states[i].queue == [] && states[i].worker.Idle? && states[i].written
    requires forall id | id in states[i].requests :: !states[i].requests[id].client.Committed?
    ensures states[i].wanted <= states[i].generated <= states[i].committed
    ensures states[i].wanted == states[i].committed ==> states[i].generated == states[i].committed
  {
    RunKeepsInv(states, steps, i);
  }

  /** Each request is answered once, whoever generates what: never twice, and not at all only while it is
      pending. */
  lemma AnsweredOnce(states: seq<State>, steps: seq<Step>, i: nat, id: nat)
    requires Run(states, steps) && i <= |steps| && id in states[i].requests
    ensures var s := states[i]; var r := s.requests[id];
            && r.sends <= 1
            && (r.sends == 0 ==> r.client.Committed? || Pending(s, id))
            && (r.sends == 1 ==> !Pending(s, id))
  {
    RunKeepsRequests(states, steps, i);
    assert RequestOk(states[i], id);
  }

  /** After both have been queued, the first is done with, or in hand, or still before the second. */
  ghost predicate InTurn(s: State, first: nat, second: nat)
  {
    && first in s.requests && second in s.requests && first != second
    && (s.requests[second].sends > 0 ==> s.requests[first].sends > 0)
    && (s.requests[first].sends == 0 ==>
          || (!s.worker.Idle? && s.worker.id == first && second in s.queue)
          || Before(s.queue, first, second))
  }

  lemma QueuedInTurn(s: State, first: nat, second: nat)
    requires RequestsOk(s) && Enabled(s, Enqueue(second)) && first in s.requests && !s.requests[first].client.Committed?
    ensures InTurn(AfterClient(s, Enqueue(second)), first, second)
  {
    assert RequestOk(s, first) && RequestOk(s, second);
    var t := AfterClient(s, Enqueue(second));
    assert t.queue[|t.queue| - 1] == second;
    if first in s.queue {
      var i :| 0 <= i < |s.queue| && s.queue[i] == first;
      assert t.queue[i] == first;
      assert Before(t.queue, first, second);
    }
  }

  ghost predicate Before(queue: seq<nat>, first: nat, second: nat)
  {
    exists i, j | 0 <= i < j < |queue| :: queue[i] == first && queue[j] == second
  }

  lemma StillBefore(queue: seq<nat>, more: seq<nat>, first: nat, second: nat)
    requires Before(queue, first, second)
    ensures Before(queue + more, first, second)
    ensures queue[0] != first ==> Before(queue[1..], first, second)
    ensures second in queue[1..]
  {
    var i, j :| 0 <= i < j < |queue| && queue[i] == first && queue[j] == second;
    assert (queue + more)[i] == first && (queue + more)[j] == second;
    assert queue[1..][j - 1] == second;
    if queue[0] != first {
      assert queue[1..][i - 1] == first;
    }
  }

  lemma ClientKeepsTurn(s: State, step: Step, first: nat, second: nat)
    requires RequestsOk(s) && Enabled(s, step) && OfClient(step) && InTurn(s, first, second)
    ensures InTurn(AfterClient(s, step), first, second)
  {
    hide RequestOk, QueueOk, Before;
    if Before(s.queue, first, second) {
      StillBefore(s.queue, if step.Enqueue? then [step.id] else [], first, second);
      assert s.queue + [] == s.queue;
    }
  }

  lemma TakeKeepsTurn(s: State, first: nat, second: nat)
    requires RequestsOk(s) && Enabled(s, Take) && InTurn(s, first, second)
    ensures InTurn(AfterWorker(s, Take), first, second)
  {
    hide RequestOk, QueueOk, Before;
    if Before(s.queue, first, second) {
      StillBefore(s.queue, [], first, second);
    }
  }

  lemma SendKeepsTurn(s: State, first: nat, second: nat)
    requires RequestsOk(s) && Enabled(s, Send) && InTurn(s, first, second)
    ensures InTurn(AfterWorker(s, Send), first, second)
  {
    hide Before;
    assert RequestOk(s, first) && RequestOk(s, second);
    if Before(s.queue, first, second) {
      BeforeMeansIn(s.queue, first, second);
    }
    hide RequestOk;
  }

  lemma BeforeMeansIn(queue: seq<nat>, first: nat, second: nat)
    requires Before(queue, first, second)
    ensures first in queue && second in queue
  {
  }

  lemma WorkKeepsTurn(s: State, step: Step, first: nat, second: nat)
    requires Enabled(s, step) && InTurn(s, first, second) && !OfClient(step) && !step.Take? && !step.Send?
    ensures InTurn(After(s, step), first, second)
  {
    hide Before;
    var t := After(s, step);
    assert t.requests == s.requests && t.queue == s.queue;
    assert !s.worker.Idle? ==> !t.worker.Idle? && t.worker.id == s.worker.id;
  }

  lemma StepKeepsTurn(s: State, step: Step, first: nat, second: nat)
    requires RequestsOk(s) && Enabled(s, step) && InTurn(s, first, second)
    ensures InTurn(After(s, step), first, second)
  {
    hide RequestsOk, InTurn, AfterClient, AfterWorker, AfterOther, Enabled;
    if OfClient(step) {
      ClientKeepsTurn(s, step, first, second);
    } else if step.Take? {
      TakeKeepsTurn(s, first, second);
    } else if step.Send? {
      SendKeepsTurn(s, first, second);
    } else {
      WorkKeepsTurn(s, step, first, second);
    }
  }

  lemma {:induction false} StaysInTurn(states: seq<State>, steps: seq<Step>, i: nat, k: nat, first: nat, second: nat)
    requires Run(states, steps) && i <= k <= |steps| && InTurn(states[i], first, second)
    ensures InTurn(states[k], first, second)
    decreases k
  {
    hide Enabled, After, InTurn, RequestsOk;
    if i < k {
      StaysInTurn(states, steps, i, k - 1, first, second);
      RunKeepsRequests(states, steps, k - 1);
      StepKeepsTurn(states[k - 1], steps[k - 1], first, second);
    }
  }

  lemma EnqueuedIsNotCommitted(s: State, id: nat)
    requires Enabled(s, Enqueue(id))
    ensures var t := After(s, Enqueue(id)); id in t.requests && !t.requests[id].client.Committed?
  {
  }

  lemma NeverCommittedAgain(s: State, step: Step, id: nat)
    requires Enabled(s, step) && id in s.requests && !s.requests[id].client.Committed?
    ensures var t := After(s, step); id in t.requests && !t.requests[id].client.Committed?
  {
  }

  lemma {:induction false} StaysQueued(states: seq<State>, steps: seq<Step>, i: nat, k: nat, id: nat)
    requires Run(states, steps) && i < k <= |steps| && steps[i] == Enqueue(id)
    ensures id in states[k].requests && !states[k].requests[id].client.Committed?
    decreases k
  {
    hide Enabled, After;
    if k == i + 1 {
      EnqueuedIsNotCommitted(states[i], id);
    } else {
      StaysQueued(states, steps, i, k - 1, id);
      NeverCommittedAgain(states[k - 1], steps[k - 1], id);
    }
  }

  /** Requests are answered in the order they were queued in. */
  lemma AnsweredInTurn(states: seq<State>, steps: seq<Step>, i: nat, j: nat, k: nat, first: nat, second: nat)
    requires Run(states, steps) && i < j < k <= |steps| && steps[i] == Enqueue(first) && steps[j] == Enqueue(second)
    ensures first in states[k].requests && second in states[k].requests
    ensures states[k].requests[second].sends > 0 ==> states[k].requests[first].sends > 0
  {
    hide Enabled, After, RequestsOk;
    StaysQueued(states, steps, i, j, first);
    RunKeepsRequests(states, steps, j);
    QueuedInTurn(states[j], first, second);
    assert After(states[j], steps[j]) == AfterClient(states[j], steps[j]) by { AfterEnqueue(states[j], second); }
    StaysInTurn(states, steps, j + 1, k, first, second);
  }

  lemma AfterEnqueue(s: State, id: nat)
    requires Enabled(s, Enqueue(id))
    ensures After(s, Enqueue(id)) == AfterClient(s, Enqueue(id))
  {
  }

  /** A client that is told its commit is applied can rely on it, then and for as long as nobody is
      overtaken. */
  lemma AppliedIsInForce(states: seq<State>, steps: seq<Step>, i: nat, id: nat)
    requires Run(states, steps) && i <= |steps| && id in states[i].requests && !Overtaken(steps, i)
    requires states[i].requests[id].client == Answered(true)
    ensures var s := states[i]; var r := s.requests[id];
            r.version <= s.generated && (s.running ==> r.version <= s.loaded)
  {
    RunKeepsInv(states, steps, i);
    assert AppliedOk(states[i], id);
  }

  /** The worker can always take its next step: nobody who stopped waiting keeps it from answering,
      and while a request is queued or in hand it is not stuck. */
  lemma WorkerNeverBlocks(states: seq<State>, steps: seq<Step>, i: nat)
    requires Run(states, steps) && i <= |steps|
    ensures var s := states[i];
            match s.worker
            case Idle => s.queue != [] ==> Enabled(s, Take)
            case Taken(_) => Enabled(s, ReadLatest(Queue))
            case Read(_, _) => Enabled(s, WriteTemp(Queue, true)) && Enabled(s, WriteTemp(Queue, false))
            case Wrote(_) => Enabled(s, Replace(Queue, if s.there then Replaced else KeptWithError))
            case Generated(_) => forall loading :: Enabled(s, Load(loading))
            case Finished(_, _) => Enabled(s, Send)
  {
    RunKeepsRequests(states, steps, i);
    if states[i].worker.Finished? {
      assert RequestOk(states[i], states[i].worker.id);
    }
  }
}
