/**
 Notification fan-out: processEveryoneMention and processServerNotifications
 (server/cmd/notification/service.go).

 What the stores and the connectivity sets answer is fixed while a message is fanned out.  Redis works,
 and no throttle key expires meanwhile; a push that fails is logged by the service and counts as
 dispatched.  Throttle keys are the strings the service builds.
 */
module PushFanout {
  import opened Common

  const BATCH_SIZE: nat := 300

  datatype Level = Nothing | MentionsOnly | All

  datatype Env = Env(
    levels: map<string, Level>, mentioned: set<string>, everyone: bool,
    devices: map<string, seq<string>>, connected: map<string, set<string>>, channel: string)

  datatype Target = Target(user: string, isMention: bool, devices: seq<string>)

  datatype Push = Push(user: string, device: string, isMention: bool)

  function LevelOf(env: Env, user: string): Level {
    if user in env.levels then env.levels[user] else All
  }

  predicate IsMention(env: Env, user: string) {
    user in env.mentioned || env.everyone
  }

  function Offline(devices: seq<string>, connected: set<string>): (r: seq<string>)
    ensures forall d :: d in r <==> d in devices && d !in connected
    ensures Distinct(devices) ==> Distinct(r)
  {
    if devices == [] then []
    else
      var n := |devices| - 1;
      var r := Offline(devices[..n], connected);
      assert devices == devices[..n] + [devices[n]];
      if devices[n] in connected then r else r + [devices[n]]
  }

  function DevicesOf(env: Env, user: string): seq<string> {
    if user in env.devices then env.devices[user] else []
  }

  function ConnectedOf(env: Env, user: string): set<string> {
    if user in env.connected then env.connected[user] else {}
  }

  /** Whether and how a user is notified: preference and mention, then push devices not connected. */
  function TargetOf(env: Env, user: string): Option<Target> {
    var level := LevelOf(env, user);
    var offline := Offline(DevicesOf(env, user), ConnectedOf(env, user));
    if level.Nothing? || (level.MentionsOnly? && !IsMention(env, user)) || offline == [] then None
    else Some(Target(user, IsMention(env, user), offline))
  }

  /** The preference lets the message through: anything but nothing, and mentions when only those are wanted. */
  predicate Permits(env: Env, user: string) {
    match LevelOf(env, user)
    case Nothing => false
    case MentionsOnly => IsMention(env, user)
    case All => true
  }

  predicate IsOffline(env: Env, user: string, device: string) {
    device in DevicesOf(env, user) && device !in ConnectedOf(env, user)
  }

  function Targets(env: Env, users: seq<string>): seq<Target> {
    if users == [] then []
    else
      var ts := Targets(env, users[..|users| - 1]);
      match TargetOf(env, users[|users| - 1])
      case None => ts
      case Some(t) => ts + [t]
  }

  /** throttleKeyType of a server-channel trigger. */
  function KeyType(isMention: bool): string {
    if isMention then "mention" else "message"
  }

  /** push_throttle:<type>:<user>:<channel> */
  function ThrottleKey(t: Target, channel: string): string {
    ("push_throttle:" + KeyType(t.isMention) + ":") + t.user + (":" + channel)
  }

  lemma Cancel(a: string, u: string, b: string, v: string, c: string)
    requires a + u + c == b + v + c && |a| == |b|
    ensures a == b && u == v
  {
    var k := a + u + c;
    assert k[..|a|] == a && k[..|a|] == b;
    assert k[|a|..|a| + |u|] == u && k[|a|..|a| + |u|] == v;
  }

  lemma KeyTypesDiffer(m: bool, m': bool)
    ensures "push_throttle:" + KeyType(m) + ":" == "push_throttle:" + KeyType(m') + ":" ==> m == m'
    ensures |"push_throttle:" + KeyType(m) + ":"| == |"push_throttle:" + KeyType(m') + ":"|
  {
    var p, q := "push_throttle:" + KeyType(m) + ":", "push_throttle:" + KeyType(m') + ":";
    assert p[16] == KeyType(m)[2] && q[16] == KeyType(m')[2];
  }

  /** Throttle keys of different users differ, whatever characters their ids hold. */
  lemma KeysDiffer(t: Target, u: Target, channel: string)
    ensures ThrottleKey(t, channel) == ThrottleKey(u, channel) ==> t.user == u.user && t.isMention == u.isMention
  {
    KeyTypesDiffer(t.isMention, u.isMention);
    if ThrottleKey(t, channel) == ThrottleKey(u, channel) {
      Cancel("push_throttle:" + KeyType(t.isMention) + ":", t.user, "push_throttle:" + KeyType(u.isMention)
        + ":", u.user, ":" + channel);
    }
  }

  // ----- what a call dispatches

  function PushesTo(t: Target, n: nat): seq<Push>
    requires n <= |t.devices|
  {
    if n == 0 then [] else PushesTo(t, n - 1) + [Push(t.user, t.devices[n - 1], t.isMention)]
  }

  /** A target gets all its pushes when its throttle key was free, none otherwise. */
  function Dispatched(free: bool, t: Target): seq<Push> {
    if free then PushesTo(t, |t.devices|) else []
  }

  /** The pushes of a list of targets, given the throttle keys held at the start. */
  function Expected(held: set<string>, key: Target -> string, ts: seq<Target>): seq<Push> {
    if ts == [] then []
    else
      var t := ts[|ts| - 1];
      Expected(held, key, ts[..|ts| - 1]) + Dispatched(key(t) !in held, t)
  }

  lemma {:induction false} TargetsConcat(env: Env, a: seq<string>, b: seq<string>)
    ensures Targets(env, a + b) == Targets(env, a) + Targets(env, b)
  {
    if b == [] {
      assert a + b == a;
    } else {
      var n := |b| - 1;
      TargetsConcat(env, a, b[..n]);
      var last := if TargetOf(env, b[n]).Some? then [TargetOf(env, b[n]).value] else [];
      assert Targets(env, a + b) == Targets(env, a + b[..n]) + last by {
        assert (a + b)[..|a + b| - 1] == a + b[..n] && (a + b)[|a + b| - 1] == b[n];
      }
      Associative(Targets(env, a), Targets(env, b[..n]), last);
    }
  }

  lemma {:induction false} ExpectedConcat(held: set<string>, key: Target -> string, a: seq<Target>, b: seq<Target>)
    ensures Expected(held, key, a + b) == Expected(held, key, a) + Expected(held, key, b)
  {
    if b == [] {
      assert a + b == a;
    } else {
      var n := |b| - 1;
      ExpectedConcat(held, key, a, b[..n]);
      var last := Dispatched(key(b[n]) !in held, b[n]);
      assert Expected(held, key, a + b) == Expected(held, key, a + b[..n]) + last by {
        assert (a + b)[..|a + b| - 1] == a + b[..n] && (a + b)[|a + b| - 1] == b[n];
      }
      Associative(Expected(held, key, a), Expected(held, key, b[..n]), last);
    }
  }

  lemma Associative<T>(x: seq<T>, y: seq<T>, z: seq<T>)
    ensures (x + y) + z == x + (y + z)
  {
  }

  lemma {:induction false} TargetsAreUsers(env: Env, users: seq<string>)
    ensures forall t :: t in Targets(env, users) ==> t.user in users && TargetOf(env, t.user) == Some(t)
    ensures Distinct(users) ==> forall i, j :: 0 <= i < j < |Targets(env, users)| ==>
      Targets(env, users)[i].user != Targets(env, users)[j].user
  {
    if users != [] {
      var n := |users| - 1;
      TargetsAreUsers(env, users[..n]);
      assert users == users[..n] + [users[n]];
      var ts := Targets(env, users[..n]);
      forall i | Distinct(users) && 0 <= i < |ts| ensures ts[i].user != users[n] {
        assert ts[i] in ts;
      }
    }
  }

  // ----- concurrent batches

  /** A batch at work: the throttle answers it has, then the pushes it has sent. */
  datatype Thread = Thread(targets: seq<Target>, results: seq<bool>, sent: nat)

  datatype World = World(held: set<string>, threads: seq<Thread>, log: seq<Push>)

  function ToSend(targets: seq<Target>, results: seq<bool>): seq<Push>
    requires |results| == |targets|
  {
    if targets == [] then []
    else
      var n := |targets| - 1;
      ToSend(targets[..n], results[..n]) + Dispatched(results[n], targets[n])
  }

  /** The next Redis command or push of one thread. */
  function Step(w: World, key: Target -> string, i: nat): World {
    if i >= |w.threads| then w
    else
      var th := w.threads[i];
      var n := |th.results|;
      if n < |th.targets| then
        var k := key(th.targets[n]);
        World(w.held + {k}, w.threads[i := th.(results := th.results + [k !in w.held])], w.log)
      else if n == |th.targets| && th.sent < |ToSend(th.targets, th.results)| then
        World(w.held, w.threads[i := th.(sent := th.sent + 1)], w.log + [ToSend(th.targets, th.results)[th.sent]])
      else w
  }

  ghost function Run(w: World, key: Target -> string, schedule: seq<nat>): World {
    if schedule == [] then w else Step(Run(w, key, schedule[..|schedule| - 1]), key, schedule[|schedule| - 1])
  }

  predicate Finished(th: Thread) {
    |th.results| == |th.targets| && th.sent == |ToSend(th.targets, th.results)|
  }

  function Start(held: set<string>, work: seq<seq<Target>>): World {
    World(held, seq(|work|, i requires 0 <= i < |work| => Thread(work[i], [], 0)), [])
  }

  // ----- the invariant

  /** No two targets of the fan-out share a throttle key. */
  ghost predicate KeysApart(work: seq<seq<Target>>, key: Target -> string) {
    forall i, j, k, l ::
      0 <= i < |work| && 0 <= j < |work| && 0 <= k < |work[i]| && 0 <= l < |work[j]| && (i != j || k != l) ==>
        key(work[i][k]) != key(work[j][l])
  }

  /** Each answer a thread holds is the one it would have got alone. */
  ghost predicate ThreadOk(th: Thread, targets: seq<Target>, held: set<string>, key: Target -> string) {
    && th.targets == targets && |th.results| <= |targets|
    && (forall k :: 0 <= k < |th.results| ==> th.results[k] == (key(targets[k]) !in held))
    && (|th.results| < |targets| ==> th.sent == 0)
    && (|th.results| == |targets| ==> th.sent <= |ToSend(targets, th.results)|)
  }

  /** A key is held when it was at the start or some thread has asked for it. */
  ghost predicate HeldOk(w: World, held: set<string>, key: Target -> string) {
    && held <= w.held
    && forall i, k ::
         0 <= i < |w.threads| && 0 <= k < |w.threads[i].targets| && |w.threads[i].results| <= |w.threads[i].targets| ==>
         (key(w.threads[i].targets[k]) in w.held <==>
          key(w.threads[i].targets[k]) in held || k < |w.threads[i].results|)
  }

  function SentBy(th: Thread): seq<Push> {
    if |th.results| == |th.targets| && th.sent <= |ToSend(th.targets, th.results)| then
      ToSend(th.targets, th.results)[..th.sent]
    else []
  }

  /** How often the threads together have sent a push. */
  ghost function SentTo(threads: seq<Thread>, p: Push): nat {
    if threads == [] then 0 else SentTo(threads[..|threads| - 1], p) + multiset(SentBy(threads[|threads| - 1]))[p]
  }

  ghost predicate Inv(w: World, work: seq<seq<Target>>, held: set<string>, key: Target -> string) {
    && ThreadsOk(w, work, held, key) && HeldOk(w, held, key)
    && forall p :: multiset(w.log)[p] == SentTo(w.threads, p)
  }

  lemma {:induction false} SentToUpdate(threads: seq<Thread>, i: nat, th: Thread, p: Push)
    requires i < |threads|
    ensures SentTo(threads[i := th], p) + multiset(SentBy(threads[i]))[p] ==
      SentTo(threads, p) + multiset(SentBy(th))[p]
  {
    var n := |threads| - 1;
    if i < n {
      SentToUpdate(threads[..n], i, th, p);
      assert threads[i := th][..n] == threads[..n][i := th];
    } else {
      assert threads[i := th][..n] == threads[..n];
    }
  }

  /** Each thread is where it should be. */
  ghost predicate ThreadsOk(w: World, work: seq<seq<Target>>, held: set<string>, key: Target -> string) {
    |w.threads| == |work| && forall i :: 0 <= i < |work| ==> ThreadOk(w.threads[i], work[i], held, key)
  }

  lemma AskHeld(w: World, work: seq<seq<Target>>, held: set<string>, key: Target -> string, i: nat)
    requires ThreadsOk(w, work, held, key) && HeldOk(w, held, key) && KeysApart(work, key)
    requires i < |work| && |w.threads[i].results| < |work[i]|
    ensures HeldOk(Step(w, key, i), held, key)
  {
    var n, w' := |w.threads[i].results|, Step(w, key, i);
    forall j, k | 0 <= j < |work| && 0 <= k < |work[j]|
      ensures key(w'.threads[j].targets[k]) in w'.held <==>
        key(w'.threads[j].targets[k]) in held || k < |w'.threads[j].results|
    {
      assert ThreadOk(w.threads[j], work[j], held, key);
      if j != i || k != n {
        assert key(work[j][k]) != key(work[i][n]);
      }
      assert key(w.threads[j].targets[k]) in w.held <==>
        key(w.threads[j].targets[k]) in held || k < |w.threads[j].results|;
    }
    forall j | 0 <= j < |work| ensures w'.threads[j].targets == work[j] {
      assert ThreadOk(w.threads[j], work[j], held, key);
    }
  }

  lemma AskThreads(w: World, work: seq<seq<Target>>, held: set<string>, key: Target -> string, i: nat)
    requires ThreadsOk(w, work, held, key) && HeldOk(w, held, key)
    requires i < |work| && |w.threads[i].results| < |work[i]|
    ensures ThreadsOk(Step(w, key, i), work, held, key)
    ensures forall p :: SentTo(Step(w, key, i).threads, p) == SentTo(w.threads, p)
  {
    var th, n, w' := w.threads[i], |w.threads[i].results|, Step(w, key, i);
    assert ThreadOk(th, work[i], held, key);
    var th' := w'.threads[i];
    assert key(th.targets[n]) in w.held <==> key(th.targets[n]) in held;
    assert ThreadOk(th', work[i], held, key);
    forall j | 0 <= j < |work| && j != i ensures ThreadOk(w'.threads[j], work[j], held, key) {
      assert ThreadOk(w.threads[j], work[j], held, key) && w'.threads[j] == w.threads[j];
    }
    assert SentBy(th) == [] && SentBy(th') == [];
    forall p ensures SentTo(w'.threads, p) == SentTo(w.threads, p) {
      SentToUpdate(w.threads, i, th', p);
    }
  }

  lemma SendKeeps(w: World, work: seq<seq<Target>>, held: set<string>, key: Target -> string, i: nat)
    requires Inv(w, work, held, key) && i < |work| && |w.threads[i].results| == |work[i]|
    ensures Inv(Step(w, key, i), work, held, key)
  {
    var th, w' := w.threads[i], Step(w, key, i);
    assert ThreadOk(th, work[i], held, key);
    var all := ToSend(th.targets, th.results);
    if th.sent < |all| {
      var th' := th.(sent := th.sent + 1);
      assert w' == World(w.held, w.threads[i := th'], w.log + [all[th.sent]]);
      assert ThreadOk(th', work[i], held, key);
      SendThreads(w, w', work, held, key, i);
      assert all[..th.sent + 1] == all[..th.sent] + [all[th.sent]];
      assert SentBy(th') == SentBy(th) + [all[th.sent]];
      forall p ensures multiset(w'.log)[p] == SentTo(w'.threads, p) {
        SentToUpdate(w.threads, i, th', p);
      }
    }
  }

  /** Sending changes neither the answers nor the keys. */
  lemma SendThreads(w: World, w': World, work: seq<seq<Target>>, held: set<string>, key: Target -> string, i: nat)
    requires ThreadsOk(w, work, held, key) && HeldOk(w, held, key) && i < |work|
    requires w'.held == w.held && |w'.threads| == |w.threads| && w'.threads == w.threads[i := w'.threads[i]]
    requires ThreadOk(w'.threads[i], work[i], held, key) && w'.threads[i].results == w.threads[i].results
    ensures ThreadsOk(w', work, held, key) && HeldOk(w', held, key)
  {
    forall j | 0 <= j < |work| ensures ThreadOk(w'.threads[j], work[j], held, key)
      ensures w'.threads[j].targets == w.threads[j].targets && w'.threads[j].results == w.threads[j].results
    {
      assert ThreadOk(w.threads[j], work[j], held, key);
    }
  }

  lemma {:induction false} RunKeeps(w: World, work: seq<seq<Target>>, held: set<string>, key: Target -> string,
      schedule: seq<nat>)
    requires Inv(w, work, held, key) && KeysApart(work, key)
    ensures Inv(Run(w, key, schedule), work, held, key)
  {
    if schedule != [] {
      var n := |schedule| - 1;
      RunKeeps(w, work, held, key, schedule[..n]);
      var v, i := Run(w, key, schedule[..n]), schedule[n];
      if i < |v.threads| {
        assert ThreadOk(v.threads[i], work[i], held, key);
        if |v.threads[i].results| < |work[i]| {
          AskHeld(v, work, held, key, i);
          AskThreads(v, work, held, key, i);
        } else {
          SendKeeps(v, work, held, key, i);
        }
      }
    }
  }

  // ----- complete runs

  lemma {:induction false} AnsweredSends(targets: seq<Target>, results: seq<bool>, held: set<string>,
      key: Target -> string)
    requires |results| == |targets| && forall k :: 0 <= k < |targets| ==> results[k] == (key(targets[k]) !in held)
    ensures ToSend(targets, results) == Expected(held, key, targets)
  {
    if targets != [] {
      var n := |targets| - 1;
      AnsweredSends(targets[..n], results[..n], held, key);
    }
  }

  ghost function Flatten<T>(qs: seq<seq<T>>): seq<T> {
    if qs == [] then [] else Flatten(qs[..|qs| - 1]) + qs[|qs| - 1]
  }

  /** Together, finished threads have sent what one call over all their targets would send. */
  lemma {:induction false} FinishedSend(threads: seq<Thread>, work: seq<seq<Target>>, held: set<string>,
      key: Target -> string, p: Push)
    requires |threads| == |work| && forall i :: 0 <= i < |work| ==>
      ThreadOk(threads[i], work[i], held, key) && Finished(threads[i])
    ensures SentTo(threads, p) == multiset(Expected(held, key, Flatten(work)))[p]
  {
    if work != [] {
      var n := |work| - 1;
      FinishedSend(threads[..n], work[..n], held, key, p);
      var th := threads[n];
      assert ThreadOk(th, work[n], held, key) && Finished(th);
      AnsweredSends(th.targets, th.results, held, key);
      assert SentBy(th) == Expected(held, key, work[n]);
      ExpectedConcat(held, key, Flatten(work[..n]), work[n]);
    }
  }

  ghost predicate Complete(w: World) {
    forall i :: 0 <= i < |w.threads| ==> Finished(w.threads[i])
  }

  lemma StartIsOk(held: set<string>, work: seq<seq<Target>>, key: Target -> string)
    ensures Inv(Start(held, work), work, held, key)
  {
    var w := Start(held, work);
    forall p ensures SentTo(w.threads, p) == 0 {
      NothingSent(w.threads, p);
    }
  }

  lemma {:induction false} NothingSent(threads: seq<Thread>, p: Push)
    requires forall i :: 0 <= i < |threads| ==> threads[i].sent == 0
    ensures SentTo(threads, p) == 0
  {
    if threads != [] {
      NothingSent(threads[..|threads| - 1], p);
      assert SentBy(threads[|threads| - 1]) == [];
    }
  }

  // ----- no interleaving gets stuck

  lemma {:induction false} RunConcat(w: World, key: Target -> string, a: seq<nat>, b: seq<nat>)
    ensures Run(w, key, a + b) == Run(Run(w, key, a), key, b)
    decreases |b|
  {
    if b == [] {
      assert a + b == a;
    } else {
      var n := |b| - 1;
      RunConcat(w, key, a, b[..n]);
      assert (a + b)[..|a| + n] == a + b[..n] && (a + b)[|a| + n] == b[n];
    }
  }

  /** A thread that has not sent more than it has to send. */
  ghost predicate OnTheWay(th: Thread) {
    && |th.results| <= |th.targets|
    && (|th.results| < |th.targets| ==> th.sent == 0)
    && (|th.results| == |th.targets| ==> th.sent <= |ToSend(th.targets, th.results)|)
  }

  /** The schedule finishes thread `i` and leaves the others where they are. */
  ghost predicate Finishes(w: World, key: Target -> string, i: nat, schedule: seq<nat>)
    requires i < |w.threads|
  {
    var v := Run(w, key, schedule);
    |v.threads| == |w.threads| && Finished(v.threads[i]) && v.threads == w.threads[i := v.threads[i]]
  }

  lemma FinishAfterStep(w: World, key: Target -> string, i: nat, rest: seq<nat>)
    requires i < |w.threads| && |Step(w, key, i).threads| == |w.threads|
    requires Step(w, key, i).threads == w.threads[i := Step(w, key, i).threads[i]]
    requires Finishes(Step(w, key, i), key, i, rest)
    ensures Finishes(w, key, i, [i] + rest)
  {
    RunConcat(w, key, [i], rest);
    assert [i][..0] == [];
    assert Run(w, key, [i]) == Step(w, key, i);
  }

  lemma Finish(w: World, key: Target -> string, i: nat) returns (schedule: seq<nat>)
    requires i < |w.threads| && OnTheWay(w.threads[i])
    ensures Finishes(w, key, i, schedule)
    decreases
      |w.threads[i].targets| - |w.threads[i].results|,
      if |w.threads[i].results| == |w.threads[i].targets| then
        |ToSend(w.threads[i].targets, w.threads[i].results)| - w.threads[i].sent
      else 0
  {
    if Finished(w.threads[i]) {
      schedule := [];
    } else {
      var rest := Finish(Step(w, key, i), key, i);
      FinishAfterStep(w, key, i, rest);
      schedule := [i] + rest;
    }
  }

  /** Running the threads one after another completes the fan-out from wherever they are. */
  lemma {:induction false} FinishFrom(w: World, key: Target -> string, i: nat) returns (schedule: seq<nat>)
    requires i <= |w.threads| && AllOnTheWay(w)
    requires forall j :: 0 <= j < i ==> Finished(w.threads[j])
    ensures Complete(Run(w, key, schedule))
    decreases |w.threads| - i
  {
    if i == |w.threads| {
      schedule := [];
    } else {
      var first := Finish(w, key, i);
      var v := Run(w, key, first);
      assert forall j :: 0 <= j < |v.threads| && j != i ==> v.threads[j] == w.threads[j];
      var rest := FinishFrom(v, key, i + 1);
      RunConcat(w, key, first, rest);
      schedule := first + rest;
    }
  }

  ghost predicate AllOnTheWay(w: World) {
    forall j :: 0 <= j < |w.threads| ==> OnTheWay(w.threads[j])
  }

  lemma StepOnTheWay(w: World, key: Target -> string, i: nat)
    requires AllOnTheWay(w)
    ensures AllOnTheWay(Step(w, key, i))
  {
    if i < |w.threads| {
      assert OnTheWay(w.threads[i]);
    }
  }

  lemma {:induction false} RunOnTheWay(w: World, key: Target -> string, schedule: seq<nat>)
    requires AllOnTheWay(w)
    ensures AllOnTheWay(Run(w, key, schedule))
  {
    if schedule != [] {
      var n := |schedule| - 1;
      RunOnTheWay(w, key, schedule[..n]);
      StepOnTheWay(Run(w, key, schedule[..n]), key, schedule[n]);
    }
  }

  /** Whatever has been run so far, the fan-out can be completed. */
  lemma CanComplete(held: set<string>, work: seq<seq<Target>>, key: Target -> string, sofar: seq<nat>)
    returns (schedule: seq<nat>)
    ensures sofar <= schedule && Complete(Run(Start(held, work), key, schedule))
  {
    var w := Start(held, work);
    RunOnTheWay(w, key, sofar);
    var rest := FinishFrom(Run(w, key, sofar), key, 0);
    RunConcat(w, key, sofar, rest);
    schedule := sofar + rest;
  }

  /** Every complete interleaving sends the same pushes. */
  lemma AnySchedule(held: set<string>, work: seq<seq<Target>>, key: Target -> string, schedule: seq<nat>)
    requires KeysApart(work, key) && Complete(Run(Start(held, work), key, schedule))
    ensures multiset(Run(Start(held, work), key, schedule).log) == multiset(Expected(held, key, Flatten(work)))
  {
    StartIsOk(held, work, key);
    RunKeeps(Start(held, work), work, held, key, schedule);
    var w := Run(Start(held, work), key, schedule);
    forall p ensures multiset(w.log)[p] == multiset(Expected(held, key, Flatten(work)))[p] {
      FinishedSend(w.threads, work, held, key, p);
    }
  }

  // ----- the batches of a target list

  function KeyOn(channel: string): Target -> string {
    (t: Target) => ThrottleKey(t, channel)
  }

  ghost function WorkOf(env: Env, batches: seq<seq<string>>): seq<seq<Target>> {
    seq(|batches|, i requires 0 <= i < |batches| => Targets(env, batches[i]))
  }

  lemma {:induction false} FlattenWork(env: Env, batches: seq<seq<string>>)
    ensures Flatten(WorkOf(env, batches)) == Targets(env, Flatten(batches))
  {
    if batches != [] {
      var n := |batches| - 1;
      FlattenWork(env, batches[..n]);
      assert WorkOf(env, batches)[..n] == WorkOf(env, batches[..n]);
      TargetsConcat(env, Flatten(batches[..n]), batches[n]);
    }
  }

  lemma DistinctParts(a: seq<string>, b: seq<string>)
    requires Distinct(a + b)
    ensures Distinct(a) && Distinct(b) && forall x :: x in a ==> x !in b
  {
    var q := a + b;
    assert forall i :: 0 <= i < |a| ==> q[i] == a[i];
    assert forall i :: 0 <= i < |b| ==> q[|a| + i] == b[i];
  }

  /** Batches of a list of distinct users share no user. */
  lemma {:induction false} BatchesApart(batches: seq<seq<string>>, i: nat, x: string)
    requires Distinct(Flatten(batches)) && i < |batches| && x in batches[i]
    ensures Distinct(batches[i]) && forall j :: 0 <= j < |batches| && j != i ==> x !in batches[j]
  {
    var n := |batches| - 1;
    DistinctParts(Flatten(batches[..n]), batches[n]);
    if i < n {
      BatchesApart(batches[..n], i, x);
      InFlatten(batches[..n], i, x);
      forall j | 0 <= j < n && j != i ensures x !in batches[j] {
        assert batches[..n][j] == batches[j];
      }
    } else {
      forall j | 0 <= j < n ensures x !in batches[j] {
        if x in batches[j] {
          InFlatten(batches[..n], j, x);
        }
      }
    }
  }

  lemma {:induction false} InFlatten(batches: seq<seq<string>>, i: nat, x: string)
    requires i < |batches| && x in batches[i]
    ensures x in Flatten(batches)
  {
    if i < |batches| - 1 {
      InFlatten(batches[..|batches| - 1], i, x);
    }
  }

  lemma WorkApart(env: Env, batches: seq<seq<string>>)
    requires Distinct(Flatten(batches))
    ensures KeysApart(WorkOf(env, batches), KeyOn(env.channel))
  {
    var work, key := WorkOf(env, batches), KeyOn(env.channel);
    forall i, j, k, l | 0 <= i < |work| && 0 <= j < |work| && 0 <= k < |work[i]| && 0 <= l < |work[j]|
      && (i != j || k != l)
      ensures key(work[i][k]) != key(work[j][l])
    {
      TargetsAreUsers(env, batches[i]);
      TargetsAreUsers(env, batches[j]);
      assert work[i][k] in Targets(env, batches[i]) && work[j][l] in Targets(env, batches[j]);
      BatchesApart(batches, i, work[i][k].user);
      KeysDiffer(work[i][k], work[j][l], env.channel);
    }
  }

  /**
   Whatever the interleaving of the batches, a completed @everyone fan-out to distinct users dispatches
   exactly the pushes of one unbatched call.
   */
  lemma BatchingIsTransparent(env: Env, held: set<string>, users: seq<string>, batches: seq<seq<string>>,
      schedule: seq<nat>, alone: seq<nat>)
    requires Distinct(users) && Flatten(batches) == users
    requires Complete(Run(Start(held, WorkOf(env, batches)), KeyOn(env.channel), schedule))
    requires Complete(Run(Start(held, WorkOf(env, [users])), KeyOn(env.channel), alone))
    ensures multiset(Run(Start(held, WorkOf(env, batches)), KeyOn(env.channel), schedule).log) ==
      multiset(Run(Start(held, WorkOf(env, [users])), KeyOn(env.channel), alone).log)
  {
    assert Flatten([users]) == users by {
      assert [users][..0] == [];
    }
    WorkApart(env, batches);
    WorkApart(env, [users]);
    FlattenWork(env, batches);
    FlattenWork(env, [users]);
    AnySchedule(held, WorkOf(env, batches), KeyOn(env.channel), schedule);
    AnySchedule(held, WorkOf(env, [users]), KeyOn(env.channel), alone);
  }

  // ----- at most once

  ghost predicate DistinctDevices(env: Env) {
    forall u :: u in env.devices ==> Distinct(env.devices[u])
  }

  lemma {:induction false} PushesOnce(t: Target, n: nat, p: Push)
    requires n <= |t.devices| && Distinct(t.devices)
    ensures multiset(PushesTo(t, n))[p] <= 1
    ensures p in PushesTo(t, n) ==> p.user == t.user && p.device in t.devices[..n]
  {
    if n > 0 {
      PushesOnce(t, n - 1, p);
      assert t.devices[..n] == t.devices[..n - 1] + [t.devices[n - 1]];
      assert t.devices[n - 1] !in t.devices[..n - 1];
    }
  }

  lemma {:induction false} ExpectedOnce(held: set<string>, key: Target -> string, ts: seq<Target>, p: Push)
    requires forall i :: 0 <= i < |ts| ==> Distinct(ts[i].devices)
    requires forall i, j :: 0 <= i < j < |ts| ==> ts[i].user != ts[j].user
    ensures multiset(Expected(held, key, ts))[p] <= 1
    ensures p in Expected(held, key, ts) ==> exists i :: 0 <= i < |ts| && p.user == ts[i].user
  {
    if ts != [] {
      var n := |ts| - 1;
      ExpectedOnce(held, key, ts[..n], p);
      PushesOnce(ts[n], |ts[n].devices|, p);
    }
  }

  lemma TargetsOnce(env: Env, held: set<string>, users: seq<string>, p: Push)
    requires Distinct(users) && DistinctDevices(env)
    ensures multiset(Expected(held, KeyOn(env.channel), Targets(env, users)))[p] <= 1
  {
    TargetsAreUsers(env, users);
    var ts := Targets(env, users);
    forall i | 0 <= i < |ts| ensures Distinct(ts[i].devices) {
      assert ts[i] in ts;
    }
    ExpectedOnce(held, KeyOn(env.channel), ts, p);
  }

  /** No user and device is pushed to twice by one fan-out, whatever the interleaving. */
  lemma AtMostOnce(env: Env, held: set<string>, users: seq<string>, batches: seq<seq<string>>, schedule: seq<nat>)
    requires Distinct(users) && Flatten(batches) == users && DistinctDevices(env)
    requires Complete(Run(Start(held, WorkOf(env, batches)), KeyOn(env.channel), schedule))
    ensures
      var log := Run(Start(held, WorkOf(env, batches)), KeyOn(env.channel), schedule).log;
      OncePerDevice(log) && forall p :: p in log <==> Reaches(env, held, users, p)
  {
    WorkApart(env, batches);
    FlattenWork(env, batches);
    AnySchedule(held, WorkOf(env, batches), KeyOn(env.channel), schedule);
    var log := Run(Start(held, WorkOf(env, batches)), KeyOn(env.channel), schedule).log;
    var all := Expected(held, KeyOn(env.channel), Targets(env, users));
    forall p ensures multiset(log)[p] <= 1 && (p in log <==> Reaches(env, held, users, p)) {
      TargetsOnce(env, held, users, p);
      ExpectedReaches(env, held, users, p);
      assert p in log <==> p in multiset(log);
      assert p in all <==> p in multiset(all);
    }
    OnceFromCounts(env, held, users, log);
  }

  // ----- the service's loops

  /** The batching loop of processEveryoneMention. */
  method SplitIntoBatches(users: seq<string>) returns (batches: seq<seq<string>>)
    ensures Flatten(batches) == users
    ensures forall i :: 0 <= i < |batches| ==> 0 < |batches[i]| <= BATCH_SIZE
    ensures forall i :: 0 <= i < |batches| - 1 ==> |batches[i]| == BATCH_SIZE
  {
    batches := [];
    var i := 0;
    while i < |users|
      invariant 0 <= i <= |users| && Flatten(batches) == users[..i]
      invariant forall k :: 0 <= k < |batches| ==> 0 < |batches[k]| <= BATCH_SIZE
      invariant i < |users| ==> forall k :: 0 <= k < |batches| ==> |batches[k]| == BATCH_SIZE
      invariant forall k :: 0 <= k < |batches| - 1 ==> |batches[k]| == BATCH_SIZE
    {
      var end := i + BATCH_SIZE;
      if end > |users| {
        end := |users|;
      }
      var batch := users[i..end];
      assert (batches + [batch])[..|batches|] == batches;
      assert users[..end] == users[..i] + batch;
      batches := batches + [batch];
      i := end;
    }
    assert users[..|users|] == users;
  }

  ghost predicate SeparatesUsers(key: Target -> string) {
    forall t, u :: key(t) == key(u) ==> t.user == u.user
  }

  lemma KeyOnSeparates(channel: string)
    ensures SeparatesUsers(KeyOn(channel))
  {
    forall t, u ensures KeyOn(channel)(t) == KeyOn(channel)(u) ==> t.user == u.user {
      KeysDiffer(t, u, channel);
    }
  }

  ghost function KeysOf(ts: seq<Target>, key: Target -> string): set<string> {
    set i | 0 <= i < |ts| :: key(ts[i])
  }

  method CollectOffline(devices: seq<string>, connected: set<string>) returns (offline: seq<string>)
    ensures offline == Offline(devices, connected)
  {
    offline := [];
    for i := 0 to |devices|
      invariant offline == Offline(devices[..i], connected)
    {
      assert devices[..i + 1][..i] == devices[..i];
      if devices[i] !in connected {
        offline := offline + [devices[i]];
      }
    }
    assert devices[..|devices|] == devices;
  }

  /**
   A user is a target exactly when the preference permits it and a push device is offline; all such devices are
   listed.
   */
  method Classify(env: Env, user: string) returns (r: Option<Target>)
    ensures r.Some? <==> Permits(env, user) && exists d :: IsOffline(env, user, d)
    ensures r.Some? ==> r.value.user == user && (r.value.isMention <==> user in env.mentioned || env.everyone)
    ensures r.Some? ==> forall d :: d in r.value.devices <==> IsOffline(env, user, d)
    ensures r == TargetOf(env, user)
  {
    var level := if user in env.levels then env.levels[user] else All;
    if level == Nothing {
      return None;
    }
    var isMentioned := user in env.mentioned;
    var isMention := isMentioned || env.everyone;
    if level == MentionsOnly && !isMention {
      return None;
    }
    var offline := CollectOffline(DevicesOf(env, user), ConnectedOf(env, user));
    if offline == [] {
      return None;
    }
    assert IsOffline(env, user, offline[0]) by {
      assert offline[0] in offline;
    }
    return Some(Target(user, isMention, offline));
  }

  /** The SETNX pipeline, each command in turn. */
  method Throttle(key: Target -> string, targets: seq<Target>, held: set<string>)
    returns (held': set<string>, results: seq<bool>)
    requires forall i, j :: 0 <= i < j < |targets| ==> key(targets[i]) != key(targets[j])
    ensures |results| == |targets| && forall k :: 0 <= k < |targets| ==> results[k] == (key(targets[k]) !in held)
    ensures held' == held + KeysOf(targets, key)
  {
    held', results := held, [];
    for i := 0 to |targets|
      invariant |results| == i && forall k :: 0 <= k < i ==> results[k] == (key(targets[k]) !in held)
      invariant held' == held + KeysOf(targets[..i], key)
    {
      results := results + [key(targets[i]) !in held'];
      held' := held' + {key(targets[i])};
      assert KeysOf(targets[..i + 1], key) == KeysOf(targets[..i], key) + {key(targets[i])} by {
        assert forall j :: 0 <= j < i ==> targets[..i + 1][j] == targets[..i][j];
        assert targets[..i + 1][i] == targets[i];
      }
    }
    assert targets[..|targets|] == targets;
  }

  method ClassifyAll(env: Env, users: seq<string>) returns (targets: seq<Target>)
    ensures targets == Targets(env, users)
  {
    targets := [];
    for i := 0 to |users|
      invariant targets == Targets(env, users[..i])
    {
      assert users[..i + 1][..i] == users[..i];
      var t := Classify(env, users[i]);
      if t.Some? {
        targets := targets + [t.value];
      }
    }
    assert users[..|users|] == users;
  }

  method DispatchAll(targets: seq<Target>, results: seq<bool>) returns (log: seq<Push>)
    requires |results| == |targets|
    ensures log == ToSend(targets, results)
  {
    log := [];
    for i := 0 to |targets|
      invariant log == ToSend(targets[..i], results[..i])
    {
      assert targets[..i + 1][..i] == targets[..i] && results[..i + 1][..i] == results[..i];
      if results[i] {
        for d := 0 to |targets[i].devices|
          invariant log == ToSend(targets[..i], results[..i]) + PushesTo(targets[i], d)
        {
          log := log + [Push(targets[i].user, targets[i].devices[d], targets[i].isMention)];
        }
      }
    }
    assert targets[..|targets|] == targets && results[..|targets|] == results;
  }

  /** What one call sends: to every offline device of every permitted user whose throttle key was free. */
  ghost predicate Reaches(env: Env, held: set<string>, users: seq<string>, p: Push) {
    && p.user in users && Permits(env, p.user) && IsOffline(env, p.user, p.device)
    && (p.isMention <==> IsMention(env, p.user))
    && KeyOn(env.channel)(Target(p.user, p.isMention, [])) !in held
  }

  lemma {:induction false} PushesAre(t: Target, n: nat, p: Push)
    requires n <= |t.devices|
    ensures p in PushesTo(t, n) <==> p.user == t.user && p.isMention == t.isMention && p.device in t.devices[..n]
  {
    if n > 0 {
      PushesAre(t, n - 1, p);
      assert t.devices[..n] == t.devices[..n - 1] + [t.devices[n - 1]];
    }
  }

  lemma KeyIgnoresDevices(channel: string, t: Target)
    ensures KeyOn(channel)(t) == KeyOn(channel)(Target(t.user, t.isMention, []))
  {
  }

  lemma TargetIs(env: Env, user: string)
    ensures TargetOf(env, user).Some? <==> Permits(env, user) && exists d :: IsOffline(env, user, d)
    ensures
      var t := TargetOf(env, user);
      t.Some? ==>
        && t.value.user == user && (t.value.isMention <==> IsMention(env, user))
        && forall d :: d in t.value.devices <==> IsOffline(env, user, d)
  {
    var offline := Offline(DevicesOf(env, user), ConnectedOf(env, user));
    if offline != [] {
      assert offline[0] in offline;
      assert IsOffline(env, user, offline[0]);
    }
  }

  lemma DispatchedReaches(env: Env, held: set<string>, users: seq<string>, user: string, p: Push)
    requires user in users
    ensures
      var t := TargetOf(env, user);
      p.user == user ==>
        (Reaches(env, held, users, p) <==> t.Some? && p in Dispatched(KeyOn(env.channel)(t.value) !in held, t.value))
    ensures
      var t := TargetOf(env, user);
      t.Some? && p in Dispatched(KeyOn(env.channel)(t.value) !in held, t.value) ==> p.user == user
  {
    TargetIs(env, user);
    var t := TargetOf(env, user);
    if t.Some? {
      var n := |t.value.devices|;
      PushesAre(t.value, n, p);
      assert t.value.devices[..n] == t.value.devices;
      KeyIgnoresDevices(env.channel, t.value);
    }
  }

  /** What one more user adds to the log. */
  lemma {:induction false} ExpectedOneMore(env: Env, held: set<string>, users: seq<string>, u: string, p: Push)
    ensures
      var key, t := KeyOn(env.channel), TargetOf(env, u);
      p in Expected(held, key, Targets(env, users + [u])) <==>
        p in Expected(held, key, Targets(env, users)) || (t.Some? && p in Dispatched(key(t.value) !in held, t.value))
  {
    assert (users + [u])[..|users|] == users;
    var ts, t := Targets(env, users), TargetOf(env, u);
    if t.Some? {
      assert (ts + [t.value])[..|ts|] == ts;
    }
  }

  /** The log of a call, push by push. */
  lemma {:induction false} ExpectedReaches(env: Env, held: set<string>, users: seq<string>, p: Push)
    ensures p in Expected(held, KeyOn(env.channel), Targets(env, users)) <==> Reaches(env, held, users, p)
  {
    if users != [] {
      var n := |users| - 1;
      var front, u := users[..n], users[n];
      assert users == front + [u];
      ExpectedReaches(env, held, front, p);
      ExpectedOneMore(env, held, front, u, p);
      DispatchedReaches(env, held, users, u, p);
    }
  }

  /** Every (user, device) occurs at most once. */
  ghost predicate OncePerDevice(log: seq<Push>) {
    forall i, j :: 0 <= i < j < |log| ==> !(log[i].user == log[j].user && log[i].device == log[j].device)
  }

  lemma TwiceCounts(log: seq<Push>, i: nat, j: nat)
    requires i < j < |log| && log[i] == log[j]
    ensures multiset(log)[log[i]] >= 2
  {
    assert log == log[..j] + log[j..];
    assert log[i] in log[..j] by {
      assert log[..j][i] == log[i];
    }
    assert log[j] in log[j..] by {
      assert log[j..][0] == log[j];
    }
    assert multiset(log) == multiset(log[..j]) + multiset(log[j..]);
  }

  /** Pushes that are what a call sends, each counted once, go to different devices. */
  lemma OnceFromCounts(env: Env, held: set<string>, users: seq<string>, log: seq<Push>)
    requires forall p :: multiset(log)[p] <= 1 && (p in log ==> Reaches(env, held, users, p))
    ensures OncePerDevice(log)
  {
    forall i, j | 0 <= i < j < |log| ensures !(log[i].user == log[j].user && log[i].device == log[j].device) {
      if log[i].user == log[j].user && log[i].device == log[j].device {
        assert log[i] in log && log[j] in log;
        assert log[i] == log[j];
        TwiceCounts(log, i, j);
      }
    }
  }

  /** processServerNotifications alone: classify, drop connected devices, throttle, dispatch. */
  method ProcessServerNotifications(env: Env, users: seq<string>, held: set<string>)
    returns (held': set<string>, log: seq<Push>)
    requires Distinct(users)
    ensures forall p :: p in log <==> Reaches(env, held, users, p)
    ensures log == Expected(held, KeyOn(env.channel), Targets(env, users))
    ensures held' == held + KeysOf(Targets(env, users), KeyOn(env.channel))
  {
    var key := KeyOn(env.channel);
    KeyOnSeparates(env.channel);
    var targets := ClassifyAll(env, users);
    TargetsAreUsers(env, users);
    var results;
    held', results := Throttle(key, targets, held);
    AnsweredSends(targets, results, held, key);
    log := DispatchAll(targets, results);
    forall p ensures p in log <==> Reaches(env, held, users, p) {
      ExpectedReaches(env, held, users, p);
    }
  }

  // ----- who is reached, field by field

  /** The text of a user's throttle key for the channel. */
  function KeyText(user: string, isMention: bool, channel: string): string {
    "push_throttle:" + (if isMention then "mention" else "message") + ":" + user + ":" + channel
  }

  lemma KeyTextIs(t: Target, channel: string)
    ensures ThrottleKey(t, channel) == KeyText(t.user, t.isMention, channel)
  {
    var p := "push_throttle:" + KeyType(t.isMention) + ":";
    assert p + t.user + (":" + channel) == p + t.user + ":" + channel;
  }

  /**
   A device is reached exactly when its user is listed, wants the message, is not connected with it and is
   not throttled.
   */
  lemma ReachesIs(env: Env, held: set<string>, users: seq<string>, p: Push)
    ensures Reaches(env, held, users, p) <==>
      && p.user in users
      && (p.isMention <==> p.user in env.mentioned || env.everyone)
      && (p.user in env.levels ==>
            env.levels[p.user] != Nothing && (env.levels[p.user] == MentionsOnly ==> p.isMention))
      && p.user in env.devices && p.device in env.devices[p.user]
      && !(p.user in env.connected && p.device in env.connected[p.user])
      && KeyText(p.user, p.isMention, env.channel) !in held
  {
    KeyTextIs(Target(p.user, p.isMention, []), env.channel);
  }

  /** The keys a fan-out leaves are those of the users who had a device to reach, throttled or not. */
  lemma {:induction false} KeysLeft(env: Env, users: seq<string>, key: string)
    ensures key in KeysOf(Targets(env, users), KeyOn(env.channel)) <==>
      exists u :: u in users && key == KeyText(u, IsMention(env, u), env.channel)
                  && Permits(env, u) && exists d :: IsOffline(env, u, d)
  {
    var ts := Targets(env, users);
    if key in KeysOf(ts, KeyOn(env.channel)) {
      var t :| t in ts && KeyOn(env.channel)(t) == key;
      TargetsOf(env, users, t);
      KeyTextIs(t, env.channel);
      assert t.devices[0] in t.devices && IsOffline(env, t.user, t.devices[0]);
    }
    if u :| u in users && key == KeyText(u, IsMention(env, u), env.channel) && Permits(env, u)
            && exists d :: IsOffline(env, u, d) {
      TargetListed(env, users, u);
      var t := TargetOf(env, u).value;
      KeyTextIs(t, env.channel);
      assert KeyOn(env.channel)(t) == key;
    }
  }

  lemma {:induction false} TargetsOf(env: Env, users: seq<string>, t: Target)
    requires t in Targets(env, users)
    ensures t.user in users && TargetOf(env, t.user) == Some(t) && t.devices != []
  {
    var n := |users| - 1;
    if t in Targets(env, users[..n]) {
      TargetsOf(env, users[..n], t);
    }
  }

  lemma {:induction false} TargetListed(env: Env, users: seq<string>, u: string)
    requires u in users && Permits(env, u) && exists d :: IsOffline(env, u, d)
    ensures TargetOf(env, u).Some? && TargetOf(env, u).value in Targets(env, users)
  {
    var n := |users| - 1;
    if u != users[n] {
      TargetListed(env, users[..n], u);
    }
  }

  /** While the keys are held, the same fan-out again pushes nothing. */
  lemma SecondIsSilent(env: Env, held: set<string>, users: seq<string>, p: Push)
    ensures !Reaches(env, held + KeysOf(Targets(env, users), KeyOn(env.channel)), users, p)
  {
    if && p.user in users && Permits(env, p.user) && IsOffline(env, p.user, p.device)
       && (p.isMention <==> IsMention(env, p.user))
    {
      KeysLeft(env, users, KeyText(p.user, p.isMention, env.channel));
      KeyTextIs(Target(p.user, p.isMention, []), env.channel);
    }
  }
}
