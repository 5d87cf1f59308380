/** Restart limits of src/runtime/supervisor.c: each child and the supervisor itself count restarts in
    a window that is started anew when a restart is asked for after it has run out.
 */
module Supervisor {

  // A count since `start`; zero means that the window has not been started.
  datatype Window = Window(count: nat, start: nat)

  // What asking at a time does to the window before the count is looked at.
  function Roll(w: Window, length: nat, now: nat): Window {
    var rolled := if length > 0 && now - w.start >= length then Window(0, now) else w;
    if rolled.start == 0 then rolled.(start := now) else rolled
  }

  // A window is started by a restart that is counted, so one that counts nothing has not been started.
  predicate Sound(w: Window) {
    w.start == 0 <==> w.count == 0
  }

  // --- One window, over every sequence of requests ---

  // A step of a window: left alone, or asked at a time, granted below the limit, and counted if granted.
  datatype Ask = Skip | At(now: nat, granted: bool)

  ghost predicate AskStep(w: Window, v: Window, length: nat, limit: nat, a: Ask) {
    match a
    case Skip => v == w
    case At(now, granted) =>
      var r := Roll(w, length, now);
      && 0 < now && w.start <= now
      && (granted <==> r.count < limit) && (v == r.(count := r.count + 1) || (v == r && !granted && r.count > 0))
  }

  ghost predicate AskRun(ws: seq<Window>, asks: seq<Ask>, length: nat, limit: nat) {
    && |ws| == |asks| + 1 && Sound(ws[0])
    && forall k :: 0 <= k < |asks| ==> AskStep(ws[k], ws[k + 1], length, limit, asks[k])
  }

  function Grants(asks: seq<Ask>): nat {
    if asks == [] then 0
    else
      var last := asks[|asks| - 1];
      Grants(asks[..|asks| - 1]) + if last.At? && last.granted then 1 else 0
  }

  // All requests are made between `from` and less than a window later.
  predicate Within(asks: seq<Ask>, from: nat, length: nat) {
    forall k :: 0 <= k < |asks| && asks[k].At? ==> from <= asks[k].now < from + length
  }

  // One window that was started before the span, and a full one in it.
  function Most(limit: nat): nat {
    if limit == 0 then 0 else 2 * limit - 1
  }

  // Grants of the span so far: in the window that was running, or up to its limit before this one. The
  // restart that started the former was before the span.
  ghost predicate Bounded(g: nat, w: Window, from: nat, limit: nat) {
    && g <= Most(limit)
    && (w.start < from && g > 0 ==> g < w.count && g < limit)
    && (w.start >= from && g > 0 ==> g < limit + w.count)
    && Sound(w)
  }

  lemma BoundedStep(g: nat, w: Window, v: Window, length: nat, limit: nat, a: Ask, from: nat)
    requires Bounded(g, w, from, limit) && AskStep(w, v, length, limit, a) && length > 0
    requires a.At? ==> from <= a.now < from + length
    ensures Bounded(g + if a.At? && a.granted then 1 else 0, v, from, limit)
  {
  }

  lemma {:induction false} SpanBounded(ws: seq<Window>, asks: seq<Ask>, length: nat, limit: nat, from: nat)
    requires AskRun(ws, asks, length, limit) && length > 0 && Within(asks, from, length)
    ensures Bounded(Grants(asks), ws[|asks|], from, limit)
    decreases |asks|
  {
    if asks != [] {
      var n := |asks| - 1;
      assert forall k :: 0 <= k < n ==> asks[..n][k] == asks[k];
      SpanBounded(ws[..n + 1], asks[..n], length, limit, from);
      BoundedStep(Grants(asks[..n]), ws[n], ws[n + 1], length, limit, asks[n], from);
    }
  }

  // In any time span shorter than the window, less than twice the limit is granted.
  lemma LessThanTwice(ws: seq<Window>, asks: seq<Ask>, length: nat, limit: nat, from: nat)
    requires AskRun(ws, asks, length, limit) && length > 0 && Within(asks, from, length)
    ensures Grants(asks) <= Most(limit)
  {
    SpanBounded(ws, asks, length, limit, from);
  }

  // With a window of one, such a span is a single instant, and at most the limit is granted.
  lemma {:induction false} InstantBounded(ws: seq<Window>, asks: seq<Ask>, limit: nat, from: nat)
    requires AskRun(ws, asks, 1, limit) && Within(asks, from, 1)
    ensures var g, w := Grants(asks), ws[|asks|]; g <= limit && (if w.start < from then g == 0 else g <= w.count)
    decreases |asks|
  {
    if asks != [] {
      var n := |asks| - 1;
      assert forall k :: 0 <= k < n ==> asks[..n][k] == asks[k];
      InstantBounded(ws[..n + 1], asks[..n], limit, from);
      assert AskStep(ws[n], ws[n + 1], 1, limit, asks[n]);
    }
  }

  // --- The supervisor ---

  datatype Restart = Permanent | Transient | Temporary

  datatype Reason = NormalExit | Crash | Killed | Timeout | Shutdown

  datatype Strategy = OneForOne | OneForAll | RestForOne

  datatype Child = Child(pid: nat, restart: Restart, maxRestarts: nat, windowMs: nat, window: Window)

  datatype Sup = Sup(children: seq<Child>, strategy: Strategy, maxRestarts: nat, windowMs: nat, window: Window, shuttingDown: bool)

  // An exit of a child: the clock as the child's limit and as the supervisor's limit read it, and the
  // process that would be started for each child (0 if it cannot be started).
  datatype Exited = Exited(pid: nat, reason: Reason, now: nat, later: nat, starts: seq<nat>)

  // Which child asked for a restart, whether it was granted, and whether a round of restarts took place.
  datatype Handled = Handled(child: int, granted: bool, round: bool, goOn: bool)

  predicate Considers(c: Child, reason: Reason) {
    c.restart.Permanent? || (c.restart.Transient? && reason != NormalExit)
  }

  // child_spec_can_restart.
  function CanRestart(c: Child, reason: Reason, now: nat): (Child, bool) {
    if !Considers(c, reason) then (c, false)
    else if c.maxRestarts == 0 then (c, true)
    else
      var r := Roll(c.window, c.windowMs, now);
      if r.count >= c.maxRestarts then (c.(window := r), false) else (c.(window := r.(count := r.count + 1)), true)
  }

  function Find(children: seq<Child>, pid: nat): (i: int)
    ensures -1 <= i < |children|
    ensures i >= 0 ==> children[i].pid == pid
    ensures forall j :: 0 <= j < |children| && (i < 0 || j < i) ==> children[j].pid != pid
  {
    if children == [] then -1
    else if children[0].pid == pid then 0
    else
      var i := Find(children[1..], pid);
      if i < 0 then -1 else i + 1
  }

  // The children that a round of restarts stops and starts again.
  predicate Affected(strategy: Strategy, failed: nat, i: nat) {
    match strategy
    case OneForOne => i == failed
    case OneForAll => true
    case RestForOne => i >= failed
  }

  function Restarted(children: seq<Child>, strategy: Strategy, failed: nat, starts: seq<nat>): (r: seq<Child>)
    requires |starts| == |children|
    ensures |r| == |children|
    ensures forall i :: 0 <= i < |r| ==> r[i] == if Affected(strategy, failed, i) then children[i].(pid := starts[i]) else children[i]
  {
    seq(|children|, i requires 0 <= i < |children| =>
      if Affected(strategy, failed, i) then children[i].(pid := starts[i]) else children[i])
  }

  predicate GivenUp(s: Sup) {
    s.maxRestarts != 0 && s.window.count >= s.maxRestarts
  }

  // supervisor_handle_exit.
  function Handle(s: Sup, e: Exited): (Sup, Handled)
    requires |e.starts| == |s.children|
  {
    var k := Find(s.children, e.pid);
    if s.shuttingDown || k < 0 then (s, Handled(-1, false, false, true))
    else
      var gone := s.children[k].(pid := 0);
      var (c, granted) := CanRestart(gone, e.reason, e.now);
      var s1 := s.(children := s.children[k := c]);
      if !granted then (s1, Handled(k, false, false, (e.reason == NormalExit && c.restart != Permanent) || !GivenUp(s1)))
      else
        var r := Roll(s.window, s.windowMs, e.later);
        var s2 := s1.(window := r.(count := r.count + 1));
        if GivenUp(s2) then (s2, Handled(k, true, false, false))
        else (s2.(children := Restarted(s2.children, s.strategy, k, e.starts)), Handled(k, true, true, true))
  }

  // --- Runs of a supervisor ---

  ghost predicate Clocked(s: Sup, e: Exited) {
    && |e.starts| == |s.children| && 0 < e.now <= e.later && s.window.start <= e.later
    && forall i :: 0 <= i < |s.children| ==> s.children[i].window.start <= e.now
  }

  ghost predicate SupRun(ss: seq<Sup>, es: seq<Exited>, hs: seq<Handled>) {
    && |ss| == |es| + 1 && |hs| == |es|
    && forall k :: 0 <= k < |es| ==> Clocked(ss[k], es[k]) && Handle(ss[k], es[k]) == (ss[k + 1], hs[k])
  }

  // How an exit looks to child c's limit, and to the supervisor's.
  function ChildAsk(s: Sup, e: Exited, h: Handled, c: nat): Ask
    requires c < |s.children|
  {
    if h.child == c && Considers(s.children[c], e.reason) && s.children[c].maxRestarts != 0 then At(e.now, h.granted) else Skip
  }

  function RoundAsk(e: Exited, h: Handled): Ask {
    if h.granted then At(e.later, h.round) else Skip
  }

  lemma ChildStep(s: Sup, e: Exited, c: nat)
    requires Clocked(s, e) && c < |s.children| && s.children[c].maxRestarts != 0
    ensures var (v, h) := Handle(s, e);
            && |v.children| == |s.children|
            && v.children[c].maxRestarts == s.children[c].maxRestarts && v.children[c].windowMs == s.children[c].windowMs
            && v.children[c].restart == s.children[c].restart
            && AskStep(s.children[c].window, v.children[c].window, s.children[c].windowMs, s.children[c].maxRestarts, ChildAsk(s, e, h, c))
            && (h.child == c && h.granted ==> ChildAsk(s, e, h, c) == At(e.now, true))
  {
  }

  lemma RoundStep(s: Sup, e: Exited)
    requires Clocked(s, e) && s.maxRestarts != 0
    ensures var (v, h) := Handle(s, e);
            && v.maxRestarts == s.maxRestarts && v.windowMs == s.windowMs
            && AskStep(s.window, v.window, s.windowMs, s.maxRestarts - 1, RoundAsk(e, h)) && (h.round ==> h.granted)
  {
  }

  function ChildAsks(ss: seq<Sup>, es: seq<Exited>, hs: seq<Handled>, c: nat): (r: seq<Ask>)
    requires |ss| == |es| + 1 && |hs| == |es| && forall k :: 0 <= k < |es| ==> c < |ss[k].children|
    ensures |r| == |es|
  {
    seq(|es|, k requires 0 <= k < |es| => ChildAsk(ss[k], es[k], hs[k], c))
  }

  function RoundAsks(es: seq<Exited>, hs: seq<Handled>): (r: seq<Ask>)
    requires |hs| == |es|
    ensures |r| == |es|
  {
    seq(|es|, k requires 0 <= k < |es| => RoundAsk(es[k], hs[k]))
  }

  // How often child c was granted a restart, and how often a round of restarts took place.
  function ChildGrants(hs: seq<Handled>, c: nat): nat {
    if hs == [] then 0
    else ChildGrants(hs[..|hs| - 1], c) + if hs[|hs| - 1].child == c && hs[|hs| - 1].granted then 1 else 0
  }

  function Rounds(hs: seq<Handled>): nat {
    if hs == [] then 0 else Rounds(hs[..|hs| - 1]) + if hs[|hs| - 1].round then 1 else 0
  }

  lemma {:induction false} SameChildren(ss: seq<Sup>, es: seq<Exited>, hs: seq<Handled>, c: nat, n: nat)
    requires SupRun(ss, es, hs) && c < |ss[0].children| && ss[0].children[c].maxRestarts != 0 && n < |ss|
    ensures var x, y := ss[0].children, ss[n].children;
            |y| == |x| && y[c].maxRestarts == x[c].maxRestarts && y[c].windowMs == x[c].windowMs && y[c].restart == x[c].restart
    decreases n
  {
    if n > 0 {
      SameChildren(ss, es, hs, c, n - 1);
      ChildStep(ss[n - 1], es[n - 1], c);
    }
  }

  lemma {:induction false} SameLimit(ss: seq<Sup>, es: seq<Exited>, hs: seq<Handled>, n: nat)
    requires SupRun(ss, es, hs) && ss[0].maxRestarts != 0 && n < |ss|
    ensures ss[n].maxRestarts == ss[0].maxRestarts && ss[n].windowMs == ss[0].windowMs
    decreases n
  {
    if n > 0 {
      SameLimit(ss, es, hs, n - 1);
      RoundStep(ss[n - 1], es[n - 1]);
    }
  }

  lemma {:induction false} CountGrants(hs: seq<Handled>, asks: seq<Ask>, c: nat)
    requires |asks| == |hs|
    requires forall k :: 0 <= k < |hs| && hs[k].child == c && hs[k].granted ==> asks[k].At? && asks[k].granted
    ensures ChildGrants(hs, c) <= Grants(asks)
    decreases |hs|
  {
    if hs != [] {
      CountGrants(hs[..|hs| - 1], asks[..|hs| - 1], c);
    }
  }

  lemma {:induction false} CountRounds(hs: seq<Handled>, asks: seq<Ask>)
    requires |asks| == |hs| && forall k :: 0 <= k < |hs| && hs[k].round ==> asks[k].At? && asks[k].granted
    ensures Rounds(hs) <= Grants(asks)
    decreases |hs|
  {
    if hs != [] {
      CountRounds(hs[..|hs| - 1], asks[..|hs| - 1]);
    }
  }

  // As supervisor_new and supervisor_add_child_ex leave it: nothing has been counted.
  predicate NewSup(s: Sup) {
    s.window == Window(0, 0) && forall i :: 0 <= i < |s.children| ==> s.children[i].window == Window(0, 0)
  }

  predicate SoundSup(s: Sup) {
    Sound(s.window) && forall i :: 0 <= i < |s.children| ==> Sound(s.children[i].window)
  }

  lemma SoundStep(s: Sup, e: Exited)
    requires Clocked(s, e) && SoundSup(s)
    ensures SoundSup(Handle(s, e).0)
  {
    var v := Handle(s, e).0;
    forall i | 0 <= i < |v.children| ensures Sound(v.children[i].window) {
      assert Sound(s.children[i].window);
    }
  }

  lemma {:induction false} SoundRun(ss: seq<Sup>, es: seq<Exited>, hs: seq<Handled>, n: nat)
    requires SupRun(ss, es, hs) && NewSup(ss[0]) && n < |ss|
    ensures SoundSup(ss[n])
    decreases n
  {
    hide Handle;
    if n > 0 {
      SoundRun(ss, es, hs, n - 1);
      SoundStep(ss[n - 1], es[n - 1]);
    }
  }

  // Part of a run.
  lemma PartRun(ss: seq<Sup>, es: seq<Exited>, hs: seq<Handled>, i: nat, j: nat)
    requires SupRun(ss, es, hs) && i <= j <= |es|
    ensures SupRun(ss[i..j + 1], es[i..j], hs[i..j])
  {
    hide Handle, Clocked;
  }

  // In every run of a new supervisor, and in any time less than its window's, a child is granted less than
  // twice its limit.
  lemma ChildRestartsBounded(ss: seq<Sup>, es: seq<Exited>, hs: seq<Handled>, i: nat, j: nat, c: nat, from: nat)
    requires SupRun(ss, es, hs) && NewSup(ss[0]) && c < |ss[0].children| && i <= j <= |es|
    requires var x := ss[0].children[c]; x.maxRestarts != 0 && x.windowMs > 0
    requires forall k :: i <= k < j ==> from <= es[k].now < from + ss[0].children[c].windowMs
    ensures ChildGrants(hs[i..j], c) < 2 * ss[0].children[c].maxRestarts
  {
    hide Handle, Clocked, ChildGrants;
    SoundRun(ss, es, hs, i);
    SameChildren(ss, es, hs, c, i);
    PartRun(ss, es, hs, i, j);
    ChildPartBounded(ss[i..j + 1], es[i..j], hs[i..j], c, from);
  }

  lemma ChildPartBounded(ss: seq<Sup>, es: seq<Exited>, hs: seq<Handled>, c: nat, from: nat)
    requires SupRun(ss, es, hs) && c < |ss[0].children|
    requires var x := ss[0].children[c]; x.maxRestarts != 0 && x.windowMs > 0 && Sound(x.window)
    requires forall k :: 0 <= k < |es| ==> from <= es[k].now < from + ss[0].children[c].windowMs
    ensures ChildGrants(hs, c) <= Most(ss[0].children[c].maxRestarts)
  {
    hide Handle, Roll, Clocked, Most;
    var x := ss[0].children[c];
    forall k | 0 <= k < |ss| ensures c < |ss[k].children| {
      SameChildren(ss, es, hs, c, k);
    }
    var asks := ChildAsks(ss, es, hs, c);
    var ws := seq(|ss|, k requires 0 <= k < |ss| => ss[k].children[c].window);
    forall k | 0 <= k < |es| ensures AskStep(ws[k], ws[k + 1], x.windowMs, x.maxRestarts, asks[k])
                                     && (hs[k].child == c && hs[k].granted ==> asks[k].At? && asks[k].granted) {
      SameChildren(ss, es, hs, c, k);
      ChildStep(ss[k], es[k], c);
    }
    CountGrants(hs, asks, c);
    LessThanTwice(ws, asks, x.windowMs, x.maxRestarts, from);
  }

  // And the supervisor goes through less than twice as many rounds as one less than its limit, and through
  // none if its limit is one.
  lemma RoundsBounded(ss: seq<Sup>, es: seq<Exited>, hs: seq<Handled>, i: nat, j: nat, from: nat)
    requires SupRun(ss, es, hs) && NewSup(ss[0]) && ss[0].maxRestarts != 0 && ss[0].windowMs > 0 && i <= j <= |es|
    requires forall k :: i <= k < j ==> from <= es[k].later < from + ss[0].windowMs
    ensures Rounds(hs[i..j]) <= Most(ss[0].maxRestarts - 1)
  {
    hide Handle, Clocked, Rounds, Most;
    SoundRun(ss, es, hs, i);
    SameLimit(ss, es, hs, i);
    PartRun(ss, es, hs, i, j);
    RoundsPartBounded(ss[i..j + 1], es[i..j], hs[i..j], from);
  }

  lemma RoundsPartBounded(ss: seq<Sup>, es: seq<Exited>, hs: seq<Handled>, from: nat)
    requires SupRun(ss, es, hs) && ss[0].maxRestarts != 0 && ss[0].windowMs > 0 && Sound(ss[0].window)
    requires forall k :: 0 <= k < |es| ==> from <= es[k].later < from + ss[0].windowMs
    ensures Rounds(hs) <= Most(ss[0].maxRestarts - 1)
  {
    hide Handle, Roll, Clocked, Most;
    var x := ss[0];
    var asks := RoundAsks(es, hs);
    var ws := seq(|ss|, k requires 0 <= k < |ss| => ss[k].window);
    forall k | 0 <= k < |es| ensures AskStep(ws[k], ws[k + 1], x.windowMs, x.maxRestarts - 1, asks[k])
                                     && (hs[k].round ==> asks[k].At? && asks[k].granted) {
      SameLimit(ss, es, hs, k);
      RoundStep(ss[k], es[k]);
    }
    CountRounds(hs, asks);
    LessThanTwice(ws, asks, x.windowMs, x.maxRestarts - 1, from);
  }

  // --- The bounds are reached ---

  // A new window, one that is filled up, and the next one.
  function Halfway(k: nat, limit: nat, window: nat): Window {
    if k == 0 then Window(0, 0) else if k <= limit then Window(k, 1) else Window(k - limit, window + 1)
  }

  // One child that crashes once, which starts the window, and then again and again, at the end of that window
  // and at the beginning of the next.
  function Crashes(k: nat, limit: nat, window: nat): Exited {
    var now := if k == 0 then 1 else if k < limit then window else window + 1;
    Exited(1, Crash, now, now, [1])
  }

  lemma {:induction false} AllGranted(n: nat)
    ensures var hs := seq(n, _ => Handled(0, true, true, true)); ChildGrants(hs, 0) == n && Rounds(hs) == n
  {
    if n > 0 {
      AllGranted(n - 1);
      assert seq(n, _ => Handled(0, true, true, true))[..n - 1] == seq(n - 1, _ => Handled(0, true, true, true));
    }
  }

  // From a new supervisor on: all exits but the first lie in less than a window's time.
  lemma ChildBoundReached(limit: nat, window: nat) returns (ss: seq<Sup>, es: seq<Exited>, hs: seq<Handled>)
    requires limit > 0 && window >= 2
    ensures SupRun(ss, es, hs) && NewSup(ss[0]) && |ss[0].children| == 1 && |hs| > 0
    ensures var c := ss[0].children[0]; c.maxRestarts == limit && c.windowMs == window
    ensures forall k :: 1 <= k < |es| ==> window <= es[k].now < window + window
    ensures ChildGrants(hs[1..], 0) == 2 * limit - 1
  {
    ss := seq(2 * limit + 1, k requires 0 <= k =>
      Sup([Child(1, Permanent, limit, window, Halfway(k, limit, window))], OneForOne, 0, 0, Window(k, if k == 0 then 0 else 1), false));
    es := seq(2 * limit, k requires 0 <= k => Crashes(k, limit, window));
    hs := seq(2 * limit, _ => Handled(0, true, true, true));
    AllGranted(2 * limit - 1);
    assert hs[1..] == seq(2 * limit - 1, _ => Handled(0, true, true, true));
    forall k | 0 <= k < |es| ensures Clocked(ss[k], es[k]) && Handle(ss[k], es[k]) == (ss[k + 1], hs[k]) {
      assert Handle(ss[k], es[k]).0.children == ss[k + 1].children;
    }
  }

  lemma RoundBoundReached(max: nat, window: nat) returns (ss: seq<Sup>, es: seq<Exited>, hs: seq<Handled>)
    requires max >= 2 && window >= 2
    ensures SupRun(ss, es, hs) && NewSup(ss[0]) && ss[0].maxRestarts == max && ss[0].windowMs == window && |hs| > 0
    ensures forall k :: 1 <= k < |es| ==> window <= es[k].later < window + window
    ensures Rounds(hs[1..]) == 2 * (max - 1) - 1
  {
    var limit := max - 1;
    ss := seq(2 * limit + 1, k requires 0 <= k =>
      Sup([Child(1, Permanent, 0, 0, Window(0, 0))], OneForOne, max, window, Halfway(k, limit, window), false));
    es := seq(2 * limit, k requires 0 <= k => Crashes(k, limit, window));
    hs := seq(2 * limit, _ => Handled(0, true, true, true));
    AllGranted(2 * limit - 1);
    assert hs[1..] == seq(2 * limit - 1, _ => Handled(0, true, true, true));
    forall k | 0 <= k < |es| ensures Clocked(ss[k], es[k]) && Handle(ss[k], es[k]) == (ss[k + 1], hs[k]) {
      assert Handle(ss[k], es[k]).0.children == ss[k + 1].children;
    }
  }

  // A window that has run out counts for nothing.
  function Counted(w: Window, length: nat, now: nat): nat {
    if length > 0 && now >= w.start + length then 0 else w.count
  }

  // Which child an exit is about: the first one with that process. Its restart is granted if and only if its
  // kind calls for it after such an exit, and its limit has not been reached; and the restarts take place if and
  // only if the supervisor's own limit is not reached with this one. It gives up only at that limit.
  lemma WhenRestarted(s: Sup, e: Exited)
    requires |e.starts| == |s.children|
    ensures var (v, h) := Handle(s, e);
            && (h.child < 0 <==> s.shuttingDown || forall i :: 0 <= i < |s.children| ==> s.children[i].pid != e.pid)
            && (h.child < 0 ==> h.child == -1 && v == s && h.goOn && !h.granted && !h.round)
            && (h.child >= 0 ==>
                  && h.child < |s.children| && s.children[h.child].pid == e.pid
                  && (forall i :: 0 <= i < h.child ==> s.children[i].pid != e.pid)
                  && var c := s.children[h.child];
                     && (h.granted <==>
                           && (c.restart == Permanent || (c.restart == Transient && e.reason != NormalExit))
                           && (c.maxRestarts == 0 || Counted(c.window, c.windowMs, e.now) < c.maxRestarts))
                     && (h.round <==> h.granted && (s.maxRestarts == 0 || Counted(s.window, s.windowMs, e.later) + 1 < s.maxRestarts))
                     && (!h.goOn ==> s.maxRestarts != 0 && v.window.count >= s.maxRestarts))
  {
  }

  // Who has a new process then: the child that exited, all children, or that child and those behind it. Nobody
  // else has changed, and without a round the child that exited has none.
  lemma WhoIsRestarted(s: Sup, e: Exited, i: nat)
    requires |e.starts| == |s.children| && i < |s.children|
    ensures var (v, h) := Handle(s, e);
            var affected := h.round && match s.strategy { case OneForOne => i == h.child case OneForAll => true case RestForOne => i >= h.child };
            && |v.children| == |s.children|
            && (affected ==> v.children[i].pid == e.starts[i])
            && (!affected && i == h.child ==> v.children[i].pid == 0)
            && (i != h.child ==> v.children[i] == s.children[i].(pid := if affected then e.starts[i] else s.children[i].pid))
  {
  }

  // --- The program ---

  class SupervisorState {
    var s: Sup

    constructor (init: Sup)
      ensures s == init
    {
      s := init;
    }

    method FindChild(pid: nat) returns (i: int)
      ensures i == Find(s.children, pid)
    {
      i := 0;
      while i < |s.children|
        invariant 0 <= i <= |s.children| && forall j :: 0 <= j < i ==> s.children[j].pid != pid
      {
        if s.children[i].pid == pid {
          return;
        }
        i := i + 1;
      }
      i := -1;
    }

    // child_spec_can_restart: counts the restart it grants.
    method AskChild(i: nat, reason: Reason, now: nat) returns (granted: bool)
      requires i < |s.children|
      modifies this
      ensures var (c, g) := CanRestart(old(s).children[i], reason, now);
              granted == g && s == old(s).(children := old(s).children[i := c])
    {
      var c := s.children[i];
      if c.restart.Temporary? || (c.restart.Transient? && reason == NormalExit) {
        return false;
      }
      if c.maxRestarts == 0 {
        return true;
      }
      if c.windowMs > 0 && now - c.window.start >= c.windowMs {
        c := c.(window := Window(0, now));
      }
      if c.window.start == 0 {
        c := c.(window := c.window.(start := now));
      }
      s := s.(children := s.children[i := c]);
      if c.window.count >= c.maxRestarts {
        return false;
      }
      s := s.(children := s.children[i := c.(window := c.window.(count := c.window.count + 1))]);
      return true;
    }

    // Stop and start the children from `first` on.
    method RestartFrom(first: nat, starts: seq<nat>, ghost strategy: Strategy, ghost failed: nat)
      requires first <= |s.children| && |starts| == |s.children|
      requires forall i :: 0 <= i < |s.children| ==> (Affected(strategy, failed, i) <==> i >= first)
      modifies this
      ensures s == old(s).(children := Restarted(old(s).children, strategy, failed, starts))
    {
      var i := first;
      while i < |s.children|
        invariant first <= i <= |s.children| == |old(s).children| && s == old(s).(children := s.children)
        invariant forall k :: 0 <= k < |s.children| ==>
                    s.children[k] == if first <= k < i then old(s).children[k].(pid := 0) else old(s).children[k]
      {
        s := s.(children := s.children[i := s.children[i].(pid := 0)]);
        i := i + 1;
      }
      i := first;
      while i < |s.children|
        invariant first <= i <= |s.children| == |old(s).children| && s == old(s).(children := s.children)
        invariant forall k :: 0 <= k < |s.children| ==>
                    s.children[k] == if k < first then old(s).children[k] else old(s).children[k].(pid := if k < i then starts[k] else 0)
      {
        s := s.(children := s.children[i := s.children[i].(pid := starts[i])]);
        i := i + 1;
      }
      assert s.children == Restarted(old(s).children, strategy, failed, starts);
    }

    method RestartRound(k: nat, starts: seq<nat>)
      requires k < |s.children| && |starts| == |s.children|
      modifies this
      ensures s == old(s).(children := Restarted(old(s).children, old(s).strategy, k, starts))
    {
      match s.strategy {
        case OneForOne =>
          s := s.(children := s.children[k := s.children[k].(pid := starts[k])]);
          assert s.children == Restarted(old(s).children, OneForOne, k, starts);
        case OneForAll => RestartFrom(0, starts, OneForAll, k);
        case RestForOne => RestartFrom(k, starts, RestForOne, k);
      }
    }

    // The supervisor's own limit: counts the restart before it looks at the count.
    method CountRestart(now: nat)
      modifies this
      ensures var r := Roll(old(s).window, old(s).windowMs, now); s == old(s).(window := r.(count := r.count + 1))
    {
      if s.windowMs > 0 && now - s.window.start >= s.windowMs {
        s := s.(window := Window(0, now));
      }
      if s.window.start == 0 {
        s := s.(window := s.window.(start := now));
      }
      s := s.(window := s.window.(count := s.window.count + 1));
    }

    method HandleExit(e: Exited) returns (h: Handled)
      requires |e.starts| == |s.children|
      modifies this
      ensures (s, h) == Handle(old(s), e)
    {
      hide CanRestart, Roll, Restarted, GivenUp, Find;
      if s.shuttingDown {
        return Handled(-1, false, false, true);
      }
      var k := FindChild(e.pid);
      if k < 0 {
        return Handled(-1, false, false, true);
      }
      ghost var gone := s.children[k].(pid := 0);
      s := s.(children := s.children[k := s.children[k].(pid := 0)]);
      var granted := AskChild(k, e.reason, e.now);
      assert s == old(s).(children := old(s).children[k := CanRestart(gone, e.reason, e.now).0]);
      if !granted {
        return Handled(k, false, false, (e.reason == NormalExit && s.children[k].restart != Permanent) || !GivenUp(s));
      }
      CountRestart(e.later);
      if GivenUp(s) {
        return Handled(k, true, false, false);
      }
      RestartRound(k, e.starts);
      h := Handled(k, true, true, true);
    }
  }
}
