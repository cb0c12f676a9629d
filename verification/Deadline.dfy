/** `deadlineTimer`: setDeadline under a lock, racing with timer callbacks that close a captured channel
    without it. Every step of setDeadline may be separated by clock ticks, firings and callbacks. */
module Deadline {
  import opened Net

  datatype Which = Read | Write
  datatype Chan = Chan(owner: Which, closed: bool)

  /** Fired means the runtime has started the function but `close` has not happened yet. */
  datatype TimerState = Pending | Fired | Done | Stopped
  datatype Timer = Timer(state: TimerState, ch: nat, when: nat, call: nat) {
    predicate Live() { state.Pending? || state.Fired? }
  }

  /** One side's channel and timer variables, with the latest deadline asked for and the number of the
      call that asked. Time 0 is Go's zero `time.Time`. */
  datatype Side = Side(ch: nat, timer: Option<nat>, deadline: nat, call: nat)

  /** How far the setDeadline holding the lock has come. */
  datatype Phase = Free | Halted(which: Which, t: nat) | Checked(which: Which, t: nat)

  datatype World = World(now: nat, chans: seq<Chan>, timers: seq<Timer>, read: Side, write: Side,
                         phase: Phase, calls: nat, panicked: bool)
  {
    function Of(which: Which): Side { if which.Read? then read else write }

    function With(which: Which, s: Side): World {
      if which.Read? then this.(read := s) else this.(write := s)
    }

    predicate Busy(which: Which) { !phase.Free? && phase.which == which }
  }

  datatype Action =
    | Begin(which: Which, t: nat)
    | Check
    | Finish(late: nat)
    | Tick(n: nat)
    | Fire(k: nat)
    | Callback(k: nat)

  ghost predicate Enabled(w: World, a: Action) {
    && w.read.ch < |w.chans| && w.write.ch < |w.chans|
    && match a
       case Begin(which, _) =>
         w.phase.Free? && (w.Of(which).timer.Some? ==> w.Of(which).timer.value < |w.timers|)
       case Check => w.phase.Halted?
       case Finish(_) => w.phase.Checked?
       case Tick(_) => true
       case Fire(k) => k < |w.timers| && w.timers[k].state.Pending? && w.timers[k].when <= w.now
       case Callback(k) => k < |w.timers| && w.timers[k].state.Fired? && w.timers[k].ch < |w.chans|
  }

  /** `*cancelCh = make(chan struct{})`. */
  function Make(w: World, which: Which): World {
    w.(chans := w.chans + [Chan(which, false)]).With(which, w.Of(which).(ch := |w.chans|))
  }

  /** `close(ch)`, which panics on a channel already closed. */
  function Close(w: World, ch: nat): World
    requires ch < |w.chans|
  {
    if w.chans[ch].closed then w.(panicked := true) else w.(chans := w.chans[ch := w.chans[ch].(closed := true)])
  }

  function SetState(w: World, k: nat, s: TimerState): World
    requires k < |w.timers|
  {
    w.(timers := w.timers[k := w.timers[k].(state := s)])
  }

  /** Stop the timer; if it was too late for that, leave its channel to it. */
  function Halt(w: World, which: Which): World
    requires w.Of(which).timer.Some? ==> w.Of(which).timer.value < |w.timers|
  {
    match w.Of(which).timer
    case None => w
    case Some(k) => if w.timers[k].state.Pending? then SetState(w, k, Stopped) else Make(w, which)
  }

  function Next(w: World, a: Action): World
    requires Enabled(w, a)
  {
    match a
    case Begin(which, t) =>
      var h := Halt(w, which);
      h.(phase := Halted(which, t), calls := w.calls + 1).With(which, h.Of(which).(deadline := t, call := w.calls))
    case Check =>
      var which := w.phase.which;
      (if w.chans[w.Of(which).ch].closed then Make(w, which) else w).(phase := Checked(which, w.phase.t))
    case Finish(late) =>
      var which, t := w.phase.which, w.phase.t;
      var s := w.Of(which);
      if t == 0 then w.(phase := Free).With(which, s.(timer := None))
      else if t <= w.now then Close(w, s.ch).(phase := Free)
      else w.(phase := Free, timers := w.timers + [Timer(Pending, s.ch, t + late, s.call)])
            .With(which, s.(timer := Some(|w.timers|)))
    case Tick(n) => w.(now := w.now + n)
    case Fire(k) => SetState(w, k, Fired)
    case Callback(k) => SetState(Close(w, w.timers[k].ch), k, Done)
  }

  // The invariant

  /** A timer that can still close its channel: the channel is open, and it is the side's current one
      only for the timer of the latest call, which never ends early. A pending timer is that timer. */
  ghost predicate TimerOk(w: World, k: nat)
    requires k < |w.timers|
  {
    var t := w.timers[k];
    && t.ch < |w.chans|
    && (t.Live() ==>
          var which := w.chans[t.ch].owner;
          var s := w.Of(which);
          && !w.chans[t.ch].closed
          && (t.state.Pending? ==> t.ch == s.ch)
          && (t.state.Fired? ==> t.when <= w.now)
          && (t.ch == s.ch ==>
                !w.Busy(which) && s.timer == Some(k) && t.call == s.call && s.deadline != 0 && s.deadline <= t.when))
  }

  function Owner(w: World, k: nat): Option<Which>
    requires k < |w.timers|
  {
    if w.timers[k].ch < |w.chans| then Some(w.chans[w.timers[k].ch].owner) else None
  }

  /** No two live timers share a channel. */
  ghost predicate Separate(timers: seq<Timer>) {
    forall k, l :: 0 <= k < |timers| && 0 <= l < |timers| && k != l && timers[k].Live() && timers[l].Live() ==>
      timers[k].ch != timers[l].ch
  }

  ghost predicate SideOk(w: World, which: Which) {
    var s := w.Of(which);
    && s.ch < |w.chans| && w.chans[s.ch].owner == which
    && (s.timer.Some? ==> s.timer.value < |w.timers| && Owner(w, s.timer.value) == Some(which))
    && (w.Busy(which) ==> w.phase.t == s.deadline && (w.phase.Checked? ==> !w.chans[s.ch].closed))
    && (!w.Busy(which) ==>
          && (w.chans[s.ch].closed ==> s.deadline != 0 && s.deadline <= w.now)
          && (s.deadline == 0 ==> s.timer.None?)
          && (s.deadline != 0 && !w.chans[s.ch].closed ==> Armed(w, which)))
  }

  /** A live timer will close the side's current channel. */
  ghost predicate Armed(w: World, which: Which) {
    var s := w.Of(which);
    s.timer.Some? && s.timer.value < |w.timers| && w.timers[s.timer.value].Live() && w.timers[s.timer.value].ch == s.ch
  }

  ghost predicate TimersOk(w: World) {
    forall k :: 0 <= k < |w.timers| ==> TimerOk(w, k)
  }

  ghost predicate Inv(w: World) {
    !w.panicked && SideOk(w, Read) && SideOk(w, Write) && TimersOk(w) && Separate(w.timers)
  }

  lemma SeparateAfter(before: seq<Timer>, after: seq<Timer>)
    requires Separate(before) && |after| == |before|
    requires forall k :: 0 <= k < |after| && after[k].Live() ==> before[k].Live() && after[k].ch == before[k].ch
    ensures Separate(after)
  {
  }

  lemma SeparateExtend(timers: seq<Timer>, t: Timer)
    requires Separate(timers)
    requires forall k :: 0 <= k < |timers| && timers[k].Live() ==> timers[k].ch != t.ch
    ensures Separate(timers + [t])
  {
  }

  /** While setDeadline works on a side, no live timer can close that side's channel. */
  lemma BusyUntargeted(w: World, which: Which)
    requires Inv(w) && w.Busy(which)
    ensures forall k :: 0 <= k < |w.timers| && w.timers[k].Live() ==> w.timers[k].ch != w.Of(which).ch
  {
    forall k | 0 <= k < |w.timers| && w.timers[k].Live() ensures w.timers[k].ch != w.Of(which).ch {
      assert TimerOk(w, k);
    }
  }

  lemma StepKeeps(w: World, a: Action)
    requires Inv(w) && Enabled(w, a)
    ensures Inv(Next(w, a))
  {
    hide Inv, Next;
    match a
    case Begin(which, t) => BeginKeeps(w, which, t);
    case Check => CheckKeeps(w);
    case Finish(late) => FinishKeeps(w, late);
    case Tick(n) => TickKeeps(w, n);
    case Fire(k) => FireKeeps(w, k);
    case Callback(k) => CallbackKeeps(w, k);
  }

  lemma TickKeeps(w: World, n: nat)
    requires Inv(w)
    ensures Inv(Next(w, Tick(n)))
  {
    hide Separate;
    var after := Next(w, Tick(n));
    forall k | 0 <= k < |after.timers| ensures TimerOk(after, k) {
      assert TimerOk(w, k);
    }
  }

  lemma FireKeeps(w: World, k: nat)
    requires Inv(w) && Enabled(w, Fire(k))
    ensures Inv(Next(w, Fire(k)))
  {
    hide Separate;
    var after := Next(w, Fire(k));
    SeparateAfter(w.timers, after.timers);
    forall l | 0 <= l < |after.timers| ensures TimerOk(after, l) {
      assert TimerOk(w, l);
    }
  }

  lemma BeginTimers(w: World, which: Which, t: nat)
    requires Inv(w) && Enabled(w, Begin(which, t))
    ensures TimersOk(Next(w, Begin(which, t))) && Separate(Next(w, Begin(which, t)).timers)
  {
    hide Separate, SideOk;
    var after := Next(w, Begin(which, t));
    SeparateAfter(w.timers, after.timers);
    forall k | 0 <= k < |after.timers| ensures TimerOk(after, k) {
      assert TimerOk(w, k);
    }
  }

  lemma BeginKeeps(w: World, which: Which, t: nat)
    requires Inv(w) && Enabled(w, Begin(which, t))
    ensures Inv(Next(w, Begin(which, t)))
  {
    hide Separate, TimersOk, TimerOk;
    BeginTimers(w, which, t);
  }

  lemma CheckKeeps(w: World)
    requires Inv(w) && Enabled(w, Check)
    ensures Inv(Next(w, Check))
  {
    hide Separate;
    var after := Next(w, Check);
    forall k | 0 <= k < |after.timers| ensures TimerOk(after, k) {
      assert TimerOk(w, k);
    }
  }

  lemma FinishTimers(w: World, late: nat)
    requires Inv(w) && Enabled(w, Finish(late))
    ensures TimersOk(Next(w, Finish(late))) && Separate(Next(w, Finish(late)).timers)
  {
    hide Separate;
    var after := Next(w, Finish(late));
    BusyUntargeted(w, w.phase.which);
    if |after.timers| > |w.timers| {
      SeparateExtend(w.timers, after.timers[|w.timers|]);
    }
    forall k | 0 <= k < |after.timers| ensures TimerOk(after, k) {
      assert k < |w.timers| ==> TimerOk(w, k);
    }
  }

  lemma FinishKeeps(w: World, late: nat)
    requires Inv(w) && Enabled(w, Finish(late))
    ensures Inv(Next(w, Finish(late)))
  {
    hide Separate, TimersOk, TimerOk;
    FinishTimers(w, late);
  }

  lemma CallbackKeeps(w: World, k: nat)
    requires Inv(w) && Enabled(w, Callback(k))
    ensures Inv(Next(w, Callback(k)))
  {
    var after := Next(w, Callback(k));
    assert TimerOk(w, k);
    forall l | 0 <= l < |after.timers| ensures TimerOk(after, l) {
      assert TimerOk(w, l);
    }
  }

  // Runs

  /** After `init`: two open channels and no timer. */
  function Start(now: nat): World {
    World(now, [Chan(Read, false), Chan(Write, false)], [], Side(0, None, 0, 0), Side(1, None, 0, 0), Free, 1, false)
  }

  ghost predicate Moves(run: seq<World>, actions: seq<Action>, now: nat) {
    && |run| == |actions| + 1 && run[0] == Start(now)
    && forall i :: 0 <= i < |actions| ==> Moved(run[i], actions[i], run[i + 1])
  }

  ghost predicate Moved(w: World, a: Action, after: World) {
    Enabled(w, a) && after == Next(w, a)
  }

  lemma {:induction false} RunInv(run: seq<World>, actions: seq<Action>, now: nat, i: nat)
    requires Moves(run, actions, now) && i < |run|
    ensures Inv(run[i])
  {
    hide Next, TimerOk;
    if i > 0 {
      RunInv(run, actions, now, i - 1);
      assert Moved(run[i - 1], actions[i - 1], run[i]);
      hide Inv;
      StepKeeps(run[i - 1], actions[i - 1]);
    }
  }

  /** A timer yet to close its channel finds it open; while pending it targets its side's current
      channel, and one set by an earlier call never does. */
  predicate HarmlessTimer(w: World, k: nat)
    requires k < |w.timers|
  {
    w.timers[k].Live() ==>
      && w.timers[k].ch < |w.chans| && !w.chans[w.timers[k].ch].closed
      && var s := w.Of(w.chans[w.timers[k].ch].owner);
         && (w.timers[k].state.Pending? ==> w.timers[k].ch == s.ch)
         && (w.timers[k].call != s.call ==> w.timers[k].ch != s.ch)
  }

  /** In every interleaving no channel is closed twice and every timer is harmless. */
  lemma NoDoubleClose(run: seq<World>, actions: seq<Action>, now: nat, i: nat)
    requires Moves(run, actions, now) && i < |run|
    ensures !run[i].panicked
    ensures forall k :: 0 <= k < |run[i].timers| ==> HarmlessTimer(run[i], k)
  {
    RunInv(run, actions, now, i);
    forall k | 0 <= k < |run[i].timers| ensures HarmlessTimer(run[i], k) {
      assert TimerOk(run[i], k);
    }
  }

  ghost predicate Undisturbed(actions: seq<Action>, i: nat, j: nat, which: Which)
    requires i <= j <= |actions|
  {
    forall k :: i <= k < j ==> !(actions[k].Begin? && actions[k].which == which)
  }

  lemma StepSame(w: World, a: Action, which: Which)
    requires Inv(w) && Enabled(w, a) && !(a.Begin? && a.which == which) && !w.Busy(which)
    ensures Next(w, a).Of(which) == w.Of(which) && !Next(w, a).Busy(which) && Next(w, a).now >= w.now
  {
    hide TimersOk, Separate;
  }

  lemma {:induction false} SideSame(run: seq<World>, actions: seq<Action>, now: nat, i: nat, j: nat, which: Which)
    requires Moves(run, actions, now) && i <= j < |run| && Undisturbed(actions, i, j, which) && !run[i].Busy(which)
    ensures run[j].Of(which) == run[i].Of(which) && !run[j].Busy(which)
    decreases j
  {
    hide Next, Inv;
    if i < j {
      SideSame(run, actions, now, i, j - 1, which);
      RunInv(run, actions, now, j - 1);
      assert Moved(run[j - 1], actions[j - 1], run[j]);
      StepSame(run[j - 1], actions[j - 1], which);
    }
  }

  /** A reader (or writer) that fetched its channel after the latest call on its side is cancelled only
      if that call's deadline is not zero and has passed, however late older callbacks run. While it is
      not cancelled and has a deadline, a timer is set that will cancel it, never before its time. */
  lemma CancelledOnTime(run: seq<World>, actions: seq<Action>, now: nat, i: nat, j: nat, which: Which)
    requires Moves(run, actions, now) && i <= j < |run| && Undisturbed(actions, i, j, which) && !run[i].Busy(which)
    ensures var ch, t := run[i].Of(which).ch, run[i].Of(which).deadline;
            && ch < |run[j].chans|
            && (run[j].chans[ch].closed ==> t != 0 && t <= run[j].now)
            && (t != 0 && !run[j].chans[ch].closed ==>
                  exists k :: 0 <= k < |run[j].timers| && run[j].timers[k].Live() && run[j].timers[k].ch == ch
                              && run[j].timers[k].when >= t)
  {
    hide Next;
    SideSame(run, actions, now, i, j, which);
    RunInv(run, actions, now, j);
    var w := run[j];
    var s := w.Of(which);
    assert SideOk(w, which);
    if s.deadline != 0 && !w.chans[s.ch].closed {
      assert TimerOk(w, s.timer.value);
    }
  }

  /** The side an action works on. */
  function Touches(w: World, a: Action): Option<Which>
    requires Enabled(w, a)
  {
    match a
    case Begin(which, _) => Some(which)
    case Check => Some(w.phase.which)
    case Finish(_) => Some(w.phase.which)
    case Tick(_) => None
    case Fire(k) => Owner(w, k)
    case Callback(k) => Owner(w, k)
  }

  /** Nothing done for one side changes the other's variables or closes the other's channel. */
  lemma SidesIndependent(w: World, a: Action, other: Which)
    requires Inv(w) && Enabled(w, a) && Touches(w, a) != Some(other)
    ensures var after := Next(w, a);
            && after.Of(other) == w.Of(other)
            && after.chans[w.Of(other).ch] == w.chans[w.Of(other).ch]
            && after.Busy(other) == w.Busy(other)
  {
    hide Separate;
    assert a.Callback? ==> TimerOk(w, a.k);
  }

  // What closes a channel

  /** A step closes channel c if it is the callback of a timer that holds c, or the end of a call for a time that
      has passed and c is the channel of its side. */
  ghost predicate Closes(w: World, a: Action, c: nat)
    requires Enabled(w, a)
  {
    match a
    case Callback(k) => c == w.timers[k].ch
    case Finish(_) => c == w.Of(w.phase.which).ch && 0 < w.phase.t <= w.now
    case _ => false
  }

  /** Exactly the channels that a step closes are closed after it, besides those that were; none is opened again,
      none changes sides, and a new one is open. */
  lemma ChannelsExact(w: World, a: Action, c: nat)
    requires Inv(w) && Enabled(w, a) && c < |Next(w, a).chans|
    ensures |w.chans| <= |Next(w, a).chans|
    ensures c < |w.chans| ==>
              Next(w, a).chans[c] == Chan(w.chans[c].owner, w.chans[c].closed || Closes(w, a, c))
    ensures c >= |w.chans| ==> !Next(w, a).chans[c].closed
  {
    hide Separate;
    assert a.Callback? ==> TimerOk(w, a.k);
  }

  /** The callback of a fired timer closes the channel the timer holds, whichever channel its side has by then,
      and is over. */
  lemma CallbackCloses(w: World, k: nat)
    requires Inv(w) && Enabled(w, Callback(k))
    ensures var after, c := Next(w, Callback(k)), w.timers[k].ch;
            && after == w.(chans := w.chans[c := Chan(w.chans[c].owner, true)], timers := after.timers)
            && after.timers == w.timers[k := w.timers[k].(state := Done)]
  {
    hide Separate;
    assert TimerOk(w, k);
  }

  lemma {:induction false} ClosedStays(run: seq<World>, actions: seq<Action>, now: nat, i: nat, j: nat, c: nat)
    requires Moves(run, actions, now) && i <= j < |run| && c < |run[i].chans| && run[i].chans[c].closed
    ensures c < |run[j].chans| && run[j].chans[c].closed
    decreases j
  {
    hide Next, Inv;
    if i < j {
      ClosedStays(run, actions, now, i, j - 1, c);
      RunInv(run, actions, now, j - 1);
      assert Moved(run[j - 1], actions[j - 1], run[j]);
      ChannelsSize(run[j - 1], actions[j - 1]);
      ChannelsExact(run[j - 1], actions[j - 1], c);
    }
  }

  lemma ChannelsSize(w: World, a: Action)
    requires Inv(w) && Enabled(w, a)
    ensures |w.chans| <= |Next(w, a).chans|
  {
    hide Separate, TimersOk;
  }

  /** From the callback of a timer on, the channel it held is closed: a reader that fetched it is cancelled, even
      if its side has another channel by then. */
  lemma LateCallback(run: seq<World>, actions: seq<Action>, now: nat, i: nat, j: nat, k: nat)
    requires Moves(run, actions, now) && i < j < |run| && actions[i] == Callback(k)
    ensures k < |run[i].timers| && run[i].timers[k].ch < |run[j].chans| && run[j].chans[run[i].timers[k].ch].closed
  {
    hide Inv, Next;
    RunInv(run, actions, now, i);
    assert Moved(run[i], actions[i], run[i + 1]);
    CallbackCloses(run[i], k);
    ClosedStays(run, actions, now, i + 1, j, run[i].timers[k].ch);
  }

  /** Every open channel that its side has replaced is held by a timer that has fired, and every timer that is
      done has closed its channel. */
  ghost predicate Remembered(w: World) {
    && (forall c :: 0 <= c < |w.chans| && !w.chans[c].closed && c != w.Of(w.chans[c].owner).ch ==> Held(w, c))
    && forall k :: 0 <= k < |w.timers| && w.timers[k].state.Done? ==>
         w.timers[k].ch < |w.chans| && w.chans[w.timers[k].ch].closed
  }

  ghost predicate Held(w: World, c: nat) {
    exists k :: 0 <= k < |w.timers| && w.timers[k].state.Fired? && w.timers[k].ch == c
  }

  lemma HeldKept(w: World, a: Action, c: nat)
    requires Inv(w) && Enabled(w, a) && Held(w, c) && c < |w.chans|
    ensures Held(Next(w, a), c) || Closes(w, a, c)
  {
    hide Separate, SideOk, TimersOk;
    var k :| 0 <= k < |w.timers| && w.timers[k].state.Fired? && w.timers[k].ch == c;
    var after := Next(w, a);
    if a != Callback(k) {
      assert k < |after.timers| && after.timers[k] == w.timers[k];
    }
  }

  lemma DoneKept(w: World, a: Action, k: nat)
    requires Inv(w) && Enabled(w, a) && Remembered(w) && k < |Next(w, a).timers| && Next(w, a).timers[k].state.Done?
    ensures Next(w, a).timers[k].ch < |Next(w, a).chans| && Next(w, a).chans[Next(w, a).timers[k].ch].closed
  {
    hide Separate, SideOk, Held;
    assert k < |w.timers| ==> TimerOk(w, k);
  }

  lemma RememberedStep(w: World, a: Action)
    requires Inv(w) && Enabled(w, a) && Remembered(w)
    ensures Remembered(Next(w, a))
  {
    hide Separate, Held, Closes, TimersOk;
    var after := Next(w, a);
    forall c | 0 <= c < |after.chans| && !after.chans[c].closed && c != after.Of(after.chans[c].owner).ch
      ensures Held(after, c)
    {
      ChannelsExact(w, a, c);
      Abandoned(w, a, c);
      HeldKept(w, a, c);
    }
    forall k | 0 <= k < |after.timers| && after.timers[k].state.Done?
      ensures after.timers[k].ch < |after.chans| && after.chans[after.timers[k].ch].closed
    {
      DoneKept(w, a, k);
    }
  }

  /** A side leaves an open channel only to a timer that has fired. */
  lemma Abandoned(w: World, a: Action, c: nat)
    requires Inv(w) && Enabled(w, a) && Remembered(w) && c < |Next(w, a).chans|
    requires var after := Next(w, a); !after.chans[c].closed && c != after.Of(after.chans[c].owner).ch
    ensures c < |w.chans| && Held(w, c)
  {
    hide Separate, TimersOk;
    if a.Begin? && c == w.Of(a.which).ch {
      assert Armed(w, a.which) && w.timers[w.Of(a.which).timer.value].state.Fired?;
    }
  }

  /** In every interleaving nobody is forgotten: a reader's channel is its side's current one, or closed, or held
      by a timer whose callback has started and will close it. */
  lemma {:induction false} NobodyForgotten(run: seq<World>, actions: seq<Action>, now: nat, i: nat)
    requires Moves(run, actions, now) && i < |run|
    ensures Remembered(run[i])
  {
    hide Next, Inv, Remembered;
    if i == 0 {
      StartRemembered(now);
    } else {
      NobodyForgotten(run, actions, now, i - 1);
      RunInv(run, actions, now, i - 1);
      assert Moved(run[i - 1], actions[i - 1], run[i]);
      RememberedStep(run[i - 1], actions[i - 1]);
    }
  }

  lemma StartRemembered(now: nat)
    ensures Remembered(Start(now))
  {
  }

  // One call, uninterrupted

  function Set(w: World, which: Which, t: nat, late: nat): World
    requires Inv(w) && w.phase.Free?
  {
    BeginKeeps(w, which, t);
    var begun := Next(w, Begin(which, t));
    CheckKeeps(begun);
    Next(Next(begun, Check), Finish(late))
  }

  lemma RefreshEffect(w: World, which: Which, t: nat)
    requires Inv(w) && w.phase.Free?
    ensures Enabled(w, Begin(which, t)) && Enabled(Next(w, Begin(which, t)), Check)
    ensures Inv(Next(w, Begin(which, t)))
    ensures var mid := Next(Next(w, Begin(which, t)), Check);
            var o := w.Of(which);
            && Inv(mid) && mid.phase == Checked(which, t) && mid.now == w.now && mid.Of(which).deadline == t
            && (mid.Of(which).ch != o.ch <==>
                  w.chans[o.ch].closed || (o.timer.Some? && !w.timers[o.timer.value].state.Pending?))
  {
    hide TimersOk, Separate;
    BeginKeeps(w, which, t);
    CheckKeeps(Next(w, Begin(which, t)));
  }

  lemma FinishEffect(w: World, late: nat)
    requires Inv(w) && w.phase.Checked?
    ensures var after := Next(w, Finish(late));
            var which, t := w.phase.which, w.phase.t;
            var s := after.Of(which);
            && Inv(after) && after.phase.Free? && s.deadline == t && s.ch == w.Of(which).ch
            && (after.chans[s.ch].closed <==> t != 0 && t <= w.now)
            && (t > w.now ==>
                  Armed(after, which) && after.timers[s.timer.value] == Timer(Pending, s.ch, t + late, s.call))
  {
    hide TimersOk, Separate;
    FinishKeeps(w, late);
  }

  /** After a call the channel is closed exactly when the deadline has passed, a future deadline has its
      timer, and the channel is a new one exactly when the old one was closed or its timer had fired. */
  lemma SetEffect(w: World, which: Which, t: nat, late: nat)
    requires Inv(w) && w.phase.Free?
    ensures var after := Set(w, which, t, late);
            var s, o := after.Of(which), w.Of(which);
            && Inv(after) && after.phase.Free? && s.deadline == t
            && (after.chans[s.ch].closed <==> t != 0 && t <= w.now)
            && (t > w.now ==>
                  Armed(after, which) && after.timers[s.timer.value] == Timer(Pending, s.ch, t + late, s.call))
            && (s.ch != o.ch <==> w.chans[o.ch].closed || (o.timer.Some? && !w.timers[o.timer.value].state.Pending?))
  {
    hide TimersOk, Separate, Next, SideOk, Armed;
    assert SideOk(w, which);
    RefreshEffect(w, which, t);
    FinishEffect(Next(Next(w, Begin(which, t)), Check), late);
  }

  /** The timer and channel variables, with the runtime's channels and timers they refer to. */
  class DeadlineTimer {
    var now: nat
    var chans: seq<Chan>
    var timers: seq<Timer>
    var read: Side
    var write: Side
    var calls: nat

    ghost function View(): World
      reads this
    {
      World(now, chans, timers, read, write, Free, calls, false)
    }

    ghost predicate Valid()
      reads this
    {
      Inv(View())
    }

    constructor (now: nat)
      ensures Valid() && View() == Start(now)
    {
      this.now, chans, timers := now, [Chan(Read, false), Chan(Write, false)], [];
      read, write, calls := Side(0, None, 0, 0), Side(1, None, 0, 0), 1;
    }

    method ReadCancel() returns (ch: nat)
      requires Valid()
      ensures ch == View().Of(Read).ch < |chans|
      ensures chans[ch].closed ==> read.deadline != 0 && read.deadline <= now
    {
      ch := read.ch;
    }

    method WriteCancel() returns (ch: nat)
      requires Valid()
      ensures ch == View().Of(Write).ch < |chans|
      ensures chans[ch].closed ==> write.deadline != 0 && write.deadline <= now
    {
      ch := write.ch;
    }

    /** The state in the middle of setDeadline, with one side's variables still in hand. */
    ghost function Mid(which: Which, t: nat, s: Side): World
      reads this
    {
      View().(phase := Checked(which, t)).With(which, s)
    }

    /** Stops the old timer, and replaces the channel if that was too late or it is closed. */
    method Refresh(s: Side, which: Which, t: nat) returns (r: Side)
      requires Valid() && s == View().Of(which)
      modifies this`chans, this`timers, this`calls
      ensures Inv(Next(old(View()), Begin(which, t)))
      ensures Mid(which, t, r) == Next(Next(old(View()), Begin(which, t)), Check)
    {
      hide Inv;
      RefreshEffect(View(), which, t);
      r := s.(deadline := t, call := calls);
      calls := calls + 1;
      if s.timer.Some? {
        if timers[s.timer.value].state.Pending? {
          timers := timers[s.timer.value := timers[s.timer.value].(state := Stopped)];
        } else {
          chans, r := chans + [Chan(which, false)], r.(ch := |chans|);
        }
      }
      if chans[r.ch].closed {
        chans, r := chans + [Chan(which, false)], r.(ch := |chans|);
      }
    }

    /** Clears the timer, closes at once, or sets a timer for the rest of the time. */
    method Arm(s: Side, which: Which, t: nat, late: nat) returns (r: Side)
      requires Inv(Mid(which, t, s))
      modifies this`chans, this`timers
      ensures View().With(which, r) == Next(old(Mid(which, t, s)), Finish(late))
    {
      hide TimersOk, Separate;
      assert SideOk(Mid(which, t, s), which);
      r := s;
      if t == 0 {
        r := s.(timer := None);
      } else if t <= now {
        chans := chans[s.ch := Chan(which, true)];
      } else {
        timers, r := timers + [Timer(Pending, s.ch, t + late, s.call)], s.(timer := Some(|timers|));
      }
    }

    /** `setDeadline` on one side's variables, passed and returned where the code passes pointers. */
    method SetOn(s: Side, which: Which, t: nat, late: nat) returns (r: Side)
      requires Valid() && s == View().Of(which)
      modifies this`chans, this`timers, this`calls
      ensures View().With(which, r) == Set(old(View()), which, t, late)
    {
      hide Inv, Next, Mid;
      RefreshEffect(View(), which, t);
      r := Refresh(s, which, t);
      r := Arm(r, which, t, late);
    }

    method SetReadDeadline(t: nat, late: nat)
      requires Valid()
      modifies this
      ensures Valid() && View() == Set(old(View()), Read, t, late)
    {
      hide Inv, Set;
      SetEffect(View(), Read, t, late);
      read := SetOn(read, Read, t, late);
    }

    method SetWriteDeadline(t: nat, late: nat)
      requires Valid()
      modifies this
      ensures Valid() && View() == Set(old(View()), Write, t, late)
    {
      hide Inv, Set;
      SetEffect(View(), Write, t, late);
      write := SetOn(write, Write, t, late);
    }

    method SetDeadline(t: nat, late: nat, later: nat)
      requires Valid()
      modifies this
      ensures Valid() && Inv(Set(old(View()), Read, t, late)) && Set(old(View()), Read, t, late).phase.Free?
      ensures View() == Set(Set(old(View()), Read, t, late), Write, t, later)
    {
      hide Inv, Set;
      SetReadDeadline(t, late);
      SetWriteDeadline(t, later);
    }

    /** The function given to `time.AfterFunc`; closing is safe because the channel is open. */
    method RunCallback(k: nat)
      requires Valid() && k < |timers| && timers[k].state.Fired?
      modifies this`chans, this`timers
      ensures old(timers[k].ch) < old(|chans|) && !old(chans[timers[k].ch].closed)
      ensures chans == old(chans)[old(timers[k].ch) := Chan(old(chans[timers[k].ch].owner), true)]
      ensures timers == old(timers)[k := old(timers[k]).(state := Done)]
      ensures Valid() && View() == Next(old(View()), Callback(k))
    {
      assert TimerOk(View(), k);
      CallbackKeeps(View(), k);
      chans := chans[timers[k].ch := chans[timers[k].ch].(closed := true)];
      timers := timers[k := timers[k].(state := Done)];
    }
  }
}
