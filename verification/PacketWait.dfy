/** `slice.Get` and `slice.GetBy` as they wait: any number of readers and writers around one list. */
module PacketWaits {
  import opened Net
  import opened PacketList

  /** Where a reader stands between two steps. */
  datatype Reader =
    | Ready                    // not in a call
    | Missed(dst: AddrPort)    // an attempt found nothing, and the lock is free again
    | Asleep(dst: AddrPort)    // inside Wait
    | Woken(dst: AddrPort)     // signalled, before it has the lock back
    | Served(pkt: Packet)
    | GaveUp                   // the context was done

  /** calls counts the Puts that have still to broadcast, which each does after it has unlocked; given is
      what readers have been handed so far. */
  datatype State = State(cap: nat, queue: seq<Packet>, calls: nat, readers: seq<Reader>, given: seq<Packet>)

  datatype Action =
    | Put(pkt: Packet)
    | PutNil
    | Broadcast
    | Ask(i: nat, dst: AddrPort)  // the first attempt of a call
    | Sleep(i: nat)
    | Cancel(i: nat)
    | Retry(i: nat)
    | Return(i: nat)

  /** The list holds a packet for dst. */
  ghost predicate Present(queue: seq<Packet>, dst: AddrPort) {
    exists k :: 0 <= k < |queue| && Match(queue[k], dst) == Some(true)
  }

  ghost predicate Found(queue: seq<Packet>, dst: AddrPort) {
    exists k: nat :: k < |queue| && Serves(queue, dst, k)
  }

  ghost predicate Searches(queue: seq<Packet>, dst: AddrPort) {
    dst.IsValid() ==> Answers(queue, dst)
  }

  /** Reader i is handed the k-th packet. */
  function Hand(s: State, i: nat, k: nat): State
    requires i < |s.readers| && k < |s.queue|
  {
    s.(queue := Without(s.queue, k), readers := s.readers[i := Served(s.queue[k])], given := s.given + [s.queue[k]])
  }

  /** What an attempt for dst by reader i makes of the state. */
  ghost predicate Attempt(s: State, i: nat, dst: AddrPort, after: State)
    requires i < |s.readers|
  {
    && Searches(s.queue, dst)
    && if Found(s.queue, dst) then
         exists k: nat :: k < |s.queue| && Serves(s.queue, dst, k)
                     && after == Hand(s, i, k)
       else after == s.(readers := s.readers[i := Missed(dst)])
  }

  function Wake(r: Reader): Reader { if r.Asleep? then Woken(r.dst) else r }

  ghost predicate Step(s: State, a: Action, after: State) {
    && 0 < s.cap && |s.queue| <= s.cap
    && match a
       case Put(p) => after == s.(queue := PutTo(s.cap, s.queue, p), calls := s.calls + 1)
       case PutNil => after == s.(calls := s.calls + 1)
       case Broadcast =>
         (s.calls > 0
          && after == s.(calls := s.calls - 1,
                         readers := seq(|s.readers|, j requires 0 <= j < |s.readers| => Wake(s.readers[j]))))
       case Ask(i, dst) => i < |s.readers| && s.readers[i].Ready? && Attempt(s, i, dst, after)
       case Sleep(i) =>
         (i < |s.readers| && s.readers[i].Missed?
          && after == s.(readers := s.readers[i := Asleep(s.readers[i].dst)]))
       case Cancel(i) =>
         i < |s.readers| && s.readers[i].Missed? && after == s.(readers := s.readers[i := GaveUp])
       case Retry(i) => i < |s.readers| && s.readers[i].Woken? && Attempt(s, i, s.readers[i].dst, after)
       case Return(i) =>
         (i < |s.readers| && (s.readers[i].Served? || s.readers[i].GaveUp?)
          && after == s.(readers := s.readers[i := Ready]))
  }

  /** Reader i sleeps although its packet is there, and no Put under way is going to wake it. */
  ghost predicate Stranded(s: State, i: nat)
    requires i < |s.readers|
  {
    s.readers[i].Asleep? && Present(s.queue, s.readers[i].dst) && s.calls == 0
  }

  ghost predicate NoneStranded(s: State) {
    forall i :: 0 <= i < |s.readers| ==> !Stranded(s, i)
  }

  /** What the wait would have to check between taking the lock and going to sleep, and does not: that its
      packet has not arrived since the last attempt, or that a broadcast is still to come. */
  ghost predicate Guard(s: State, a: Action) {
    a.Sleep? && a.i < |s.readers| && s.readers[a.i].Missed? ==> !Present(s.queue, s.readers[a.i].dst) || s.calls > 0
  }

  /** An attempt finds a packet if and only if there is one for it. */
  lemma FoundExact(queue: seq<Packet>, dst: AddrPort)
    requires Searches(queue, dst)
    ensures Found(queue, dst) <==> Present(queue, dst)
  {
    if Present(queue, dst) {
      if dst.IsValid() {
        var k: nat :| k < |queue| && Match(queue[k], dst) == Some(true);
        SomeFirst(queue, dst, k);
      } else {
        assert Serves(queue, dst, 0);
      }
    }
    if Found(queue, dst) {
      var k: nat :| k < |queue| && Serves(queue, dst, k);
      assert Match(queue[k], dst) == Some(true);
    }
  }

  lemma {:induction false} SomeFirst(queue: seq<Packet>, dst: AddrPort, x: nat)
    requires Answers(queue, dst) && dst.IsValid() && x < |queue| && Match(queue[x], dst) == Some(true)
    ensures Found(queue, dst)
  {
    hide Match;
    if y: nat :| y < x && Match(queue[y], dst) == Some(true) {
      SomeFirst(queue, dst, y);
    } else {
      AllFalse(queue, dst, x);
      assert Serves(queue, dst, x);
    }
  }

  lemma {:induction false} AllFalse(queue: seq<Packet>, dst: AddrPort, n: nat)
    requires n <= |queue| && Answers(queue, dst)
    requires forall y: nat :: y < n ==> Match(queue[y], dst) != Some(true)
    ensures forall y :: 0 <= y < n ==> Match(queue[y], dst) == Some(false)
  {
    hide Match;
    if n > 0 {
      AllFalse(queue, dst, n - 1);
      var m := Match(queue[n - 1], dst);
      assert m.Some? && (m.value ==> m == Some(true));
    }
  }

  lemma PresentWithout(queue: seq<Packet>, k: nat, dst: AddrPort)
    requires k < |queue| && Present(Without(queue, k), dst)
    ensures Present(queue, dst)
  {
    hide Match;
    var m: nat :| m < |queue| - 1 && Match(Without(queue, k)[m], dst) == Some(true);
    var x := if m < k then m else m + 1;
    assert queue[x] == Without(queue, k)[m];
  }

  /** An attempt strands nobody: it adds no packet and puts nobody to sleep. */
  lemma AttemptKeeps(s: State, i: nat, dst: AddrPort, after: State)
    requires i < |s.readers| && Attempt(s, i, dst, after) && NoneStranded(s)
    ensures NoneStranded(after)
  {
    hide Match, Without, Serves, Searches;
    if Found(s.queue, dst) {
      var k: nat :| k < |s.queue| && Serves(s.queue, dst, k)
                    && after == Hand(s, i, k);
      forall j | 0 <= j < |after.readers| ensures !Stranded(after, j) {
        assert !Stranded(s, j);
        if after.readers[j].Asleep? && Present(after.queue, s.readers[j].dst) {
          PresentWithout(s.queue, k, s.readers[j].dst);
        }
      }
    } else {
      forall j | 0 <= j < |after.readers| ensures !Stranded(after, j) {
        assert !Stranded(s, j);
      }
    }
  }

  /** A step leaves a reader asleep on its packet if and only if it is an unguarded Sleep. */
  lemma StepExact(s: State, a: Action, after: State)
    requires NoneStranded(s) && Step(s, a, after)
    ensures NoneStranded(after) <==> Guard(s, a)
  {
    hide Attempt, Present;
    match a
    case Ask(i, dst) => AttemptKeeps(s, i, dst, after);
    case Retry(i) => AttemptKeeps(s, i, s.readers[i].dst, after);
    case Sleep(i) =>
      assert Guard(s, a) <==> !Stranded(after, i);
      forall j | 0 <= j < |s.readers| && j != i ensures !Stranded(after, j) {
        assert !Stranded(s, j);
      }
    case _ =>
      forall j | 0 <= j < |s.readers| ensures !Stranded(after, j) {
        assert !Stranded(s, j);
      }
  }

  // Runs

  ghost predicate Steps(acts: seq<Action>, run: seq<State>) {
    |run| == |acts| + 1 && forall n :: 0 <= n < |acts| ==> Step(run[n], acts[n], run[n + 1])
  }

  ghost predicate Run(cap: nat, readers: nat, acts: seq<Action>, run: seq<State>) {
    Steps(acts, run) && cap > 0 && run[0] == State(cap, [], 0, seq(readers, _ => Ready), [])
  }

  /** No reader of a run ever sleeps on its packet if and only if each that went to sleep found at that moment
      no packet for it in the list, or a broadcast still to come. */
  lemma AwakeExactly(cap: nat, readers: nat, acts: seq<Action>, run: seq<State>)
    requires Run(cap, readers, acts, run)
    ensures (forall n :: 0 <= n < |run| ==> NoneStranded(run[n]))
            <==> forall n :: 0 <= n < |acts| ==> Guard(run[n], acts[n])
  {
    hide NoneStranded, Guard, Step;
    if forall n :: 0 <= n < |run| ==> NoneStranded(run[n]) {
      forall n | 0 <= n < |acts| ensures Guard(run[n], acts[n]) {
        assert NoneStranded(run[n + 1]);
        StepExact(run[n], acts[n], run[n + 1]);
      }
    }
    if forall n :: 0 <= n < |acts| ==> Guard(run[n], acts[n]) {
      forall n | 0 <= n < |run| ensures NoneStranded(run[n]) {
        AwakeTo(cap, readers, acts, run, n);
      }
    }
  }

  lemma {:induction false} AwakeTo(cap: nat, readers: nat, acts: seq<Action>, run: seq<State>, n: nat)
    requires Run(cap, readers, acts, run) && n < |run| && forall m :: 0 <= m < |acts| ==> Guard(run[m], acts[m])
    ensures NoneStranded(run[n])
  {
    hide Guard, Step;
    if n > 0 {
      AwakeTo(cap, readers, acts, run, n - 1);
      StepExact(run[n - 1], acts[n - 1], run[n]);
    }
  }

  /** A stranded reader sleeps on until somebody puts, or others take its packets away. */
  lemma SleepsOn(s: State, i: nat, a: Action, after: State)
    requires i < |s.readers| && Stranded(s, i) && Step(s, a, after)
    ensures i < |after.readers| && after.readers[i] == s.readers[i]
    ensures Stranded(after, i) || a.Put? || a.PutNil? || !Present(after.queue, s.readers[i].dst)
  {
    hide Present, Serves, Without;
  }

  /** The lost wake-up, from any state with a reader that has just missed and no broadcast under way: a
      packet for it arrives, and is announced, before it sleeps. */
  lemma LostWakeup(s: State, i: nat, p: Packet) returns (run: seq<State>)
    requires 0 < s.cap && |s.queue| <= s.cap && s.calls == 0 && i < |s.readers| && s.readers[i].Missed?
    requires Match(p, s.readers[i].dst) == Some(true)
    ensures |run| == 4 && run[0] == s && Steps([Action.Put(p), Broadcast, Sleep(i)], run)
    ensures i < |run[3].readers| && Stranded(run[3], i)
  {
    hide Match;
    var s1 := s.(queue := PutTo(s.cap, s.queue, p), calls := 1);
    var s2 := s1.(calls := 0, readers := seq(|s.readers|, j requires 0 <= j < |s.readers| => Wake(s.readers[j])));
    var s3 := s2.(readers := s2.readers[i := Asleep(s.readers[i].dst)]);
    run := [s, s1, s2, s3];
    assert s3.queue[|s3.queue| - 1] == p;
  }

  /** It happens in a run from an empty list, to its first reader. */
  lemma LostFromStart(cap: nat, readers: nat, dst: AddrPort, p: Packet) returns (run: seq<State>)
    requires cap > 0 && readers > 0 && Match(p, dst) == Some(true)
    ensures Run(cap, readers, [Ask(0, dst), Action.Put(p), Broadcast, Sleep(0)], run)
    ensures |run[4].readers| == readers && Stranded(run[4], 0)
  {
    hide Match, Stranded;
    var s := State(cap, [], 0, seq(readers, _ => Ready), []);
    var missed := s.(readers := s.readers[0 := Missed(dst)]);
    var rest := LostWakeup(missed, 0, p);
    run := [s] + rest;
    assert Attempt(s, 0, dst, missed);
    assert run[1] == rest[0] && run[2] == rest[1] && run[3] == rest[2] && run[4] == rest[3];
  }

  // The order of what readers get

  /** What left a log without being dropped, in the order it left. */
  function Handed(outs: seq<Out>): seq<Packet> {
    if outs == [] then []
    else Handed(outs[..|outs| - 1]) + if outs[|outs| - 1].dropped then [] else [outs[|outs| - 1].e.pkt]
  }

  lemma HandedAdd(outs: seq<Out>, o: Out)
    ensures Handed(outs + [o]) == Handed(outs) + if o.dropped then [] else [o.e.pkt]
  {
    assert (outs + [o])[..|outs|] == outs;
  }

  ghost predicate Matches(l: Log, s: State) {
    Packets(l.queue) == s.queue && Handed(l.outs) == s.given
  }

  /** No operation on the list, or one. */
  ghost predicate OneStep(cap: nat, l: Log, ops: seq<Op>, next: Log) {
    if ops == [] then next == l
    else |ops| == 1 && cap > 0 && |l.queue| <= cap && PacketList.Step(cap, l, ops[0], next)
  }

  /** Every step, of readers that wait and of others, is one operation on the list or none. */
  lemma StepLogged(s: State, a: Action, after: State, l: Log) returns (ops: seq<Op>, next: Log)
    requires Step(s, a, after) && Matches(l, s)
    ensures Matches(next, after) && OneStep(s.cap, l, ops, next)
  {
    hide Match, Handed, PacketList.Step, Attempt, Answers;
    ops, next := [], l;
    match a
    case Put(p) =>
      ops, next := [Op.Put(p)], PutLog(s.cap, l, p);
      PutStep(s.cap, l, p);
      PutQueue(s.cap, l, p);
      if |l.queue| == s.cap {
        HandedAdd(l.outs, Out(l.queue[0], true));
      }
    case Ask(i, dst) => ops, next := AttemptLogged(s, i, dst, after, l);
    case Retry(i) => ops, next := AttemptLogged(s, i, s.readers[i].dst, after, l);
    case _ =>
  }

  lemma AttemptLogged(s: State, i: nat, dst: AddrPort, after: State, l: Log) returns (ops: seq<Op>, next: Log)
    requires 0 < s.cap && |s.queue| <= s.cap && i < |s.readers| && Attempt(s, i, dst, after) && Matches(l, s)
    ensures Matches(next, after) && OneStep(s.cap, l, ops, next)
  {
    hide Match, Handed, PacketList.Step, Serves, Answers;
    ops, next := [], l;
    if Found(s.queue, dst) {
      var k: nat :| k < |s.queue| && Serves(s.queue, dst, k) && after == Hand(s, i, k);
      ops, next := [Asked(dst)], TakeLog(l, k);
      TakeStep(s.cap, l, dst, k);
      TakeQueue(l, k);
      HandedAdd(l.outs, Out(l.queue[k], false));
    }
  }

  /** Whatever readers wait, and however writers and readers interleave, what happens to the list is a run of
      the specification, so that `ArrivalOrder` and `Conservation` hold of it and readers are handed the
      packets of one destination in the order they were put. */
  lemma {:induction false} RunLogged(cap: nat, readers: nat, acts: seq<Action>, run: seq<State>, n: nat)
    returns (ops: seq<Op>, logs: seq<Log>)
    requires Run(cap, readers, acts, run) && n < |run|
    ensures PacketList.Run(cap, ops, logs) && logs != [] && Matches(logs[|logs| - 1], run[n]) && run[n].cap == cap
  {
    hide Step, PacketList.Step, Matches;
    if n == 0 {
      ops, logs := [], [Log([], [], [])];
      StartMatches(run[0]);
    } else {
      ops, logs := RunLogged(cap, readers, acts, run, n - 1);
      var more, next := StepLogged(run[n - 1], acts[n - 1], run[n], logs[|logs| - 1]);
      SameCap(run[n - 1], acts[n - 1], run[n]);
      ops, logs := ops + more, if more == [] then logs else logs + [next];
    }
  }

  lemma StartMatches(s: State)
    requires s.queue == [] && s.given == []
    ensures Matches(Log([], [], []), s)
  {
  }

  lemma SameCap(s: State, a: Action, after: State)
    requires Step(s, a, after)
    ensures after.cap == s.cap
  {
    hide Match, Serves;
  }

  /** Where two packets that were handed out stand among what left. */
  lemma HandedInOrder(outs: seq<Out>, i: nat, j: nat) returns (x: nat, y: nat)
    requires i < j < |Handed(outs)|
    ensures x < y < |outs| && !outs[x].dropped && !outs[y].dropped
    ensures outs[x].e.pkt == Handed(outs)[i] && outs[y].e.pkt == Handed(outs)[j]
  {
    var last := |outs| - 1;
    if j < |Handed(outs[..last])| {
      x, y := HandedInOrder(outs[..last], i, j);
    } else {
      x := HandedAt(outs[..last], i);
      y := last;
    }
  }

  lemma HandedAt(outs: seq<Out>, i: nat) returns (x: nat)
    requires i < |Handed(outs)|
    ensures x < |outs| && !outs[x].dropped && outs[x].e.pkt == Handed(outs)[i]
  {
    var last := |outs| - 1;
    if i < |Handed(outs[..last])| {
      x := HandedAt(outs[..last], i);
    } else {
      x := last;
    }
  }

  lemma OutsPut(cap: nat, ops: seq<Op>, logs: seq<Log>, n: nat, x: nat)
    requires cap > 0 && PacketList.Run(cap, ops, logs) && n < |logs| && x < |logs[n].outs|
    ensures logs[n].outs[x].e in logs[n].puts
  {
    Conservation(cap, ops, logs, n);
    var l := logs[n];
    assert Left(l.outs)[x] in multiset(Left(l.outs));
    assert Left(l.outs)[x] in multiset(l.puts);
  }

  /** Two packets of one destination that readers were handed were put in that order. */
  lemma GivenInOrder(cap: nat, readers: nat, acts: seq<Action>, run: seq<State>, n: nat, i: nat, j: nat)
    returns (ops: seq<Op>, logs: seq<Log>, a: Entry, b: Entry)
    requires Run(cap, readers, acts, run) && n < |run| && i < j < |run[n].given|
    requires KeyOf(run[n].given[i]) == KeyOf(run[n].given[j])
    ensures PacketList.Run(cap, ops, logs) && logs != [] && Matches(logs[|logs| - 1], run[n])
    ensures a.pkt == run[n].given[i] && b.pkt == run[n].given[j] && a.at < b.at
    ensures a in logs[|logs| - 1].puts && b in logs[|logs| - 1].puts
  {
    hide Step, PacketList.Step, KeyOf, Handed, Packets;
    ops, logs := RunLogged(cap, readers, acts, run, n);
    assert cap > 0 && |logs| == |ops| + 1;
    var l := logs[|ops|];
    var x, y := HandedInOrder(l.outs, i, j);
    ArrivalOrder(cap, ops, logs, |ops|, x, y);
    a, b := l.outs[x].e, l.outs[y].e;
    OutsPut(cap, ops, logs, |ops|, x);
    OutsPut(cap, ops, logs, |ops|, y);
  }
}
