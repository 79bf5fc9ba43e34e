/**
 The quiescence audit over an already parsed machine: which triggers reach each state, how long the timers behind them
 run, which of those timers another state arms too, and the findings drawn from all three.

 A document is the flat list of a composed machine's `send` and `transition` elements, each with the state it stands in.
 */
module QuiescenceAudit {
  import opened Wrappers

  type Id = string

  // ---------- Documents ----------

  /** A `delay` attribute: empty, zero in any unit, a count of milliseconds or seconds, or something else. */
  datatype DelayText = Blank | Zero | Duration(us: nat) | Unreadable

  /** A `delayexpr` attribute: none, empty, or an expression. */
  datatype ExprText = NoExpr | BlankExpr | Expr

  datatype Element =
    | Send(state: Id, event: string, expr: ExprText, delay: Option<DelayText>)
    | Transition(state: Id, event: string, targets: seq<Id>)

  type Document = seq<Element>

  /** A send that opens a window: its delay is an expression, or written and not zero. */
  predicate IsWindow(e: Element) {
    e.Send? && (!e.expr.NoExpr? || (e.delay.Some? && e.delay != Some(Zero)))
  }

  /** A send that schedules an evaluation step: its delay is zero. */
  predicate IsStep(e: Element) {
    e.Send? && e.expr.NoExpr? && e.delay == Some(Zero)
  }

  /** A send that leaves a timer running, as the stale-timer check reads it: an empty attribute counts as none. */
  predicate IsTimer(e: Element) {
    e.Send? && (e.expr.Expr? || (e.delay.Some? && e.delay != Some(Blank))) && e.delay != Some(Zero)
  }

  /** The length of a window, when it can be read. */
  function WindowLength(e: Element): Option<nat> {
    if e.Send? && e.expr.NoExpr? && e.delay.Some? && e.delay.value.Duration? then Some(e.delay.value.us) else None
  }

  predicate Reaches(e: Element, target: Id) {
    e.Transition? && target in e.targets
  }

  // ---------- How a state is reached ----------

  datatype Kind = Window | Step | Other

  function WindowEvents(doc: Document): set<string> {
    set i | 0 <= i < |doc| && IsWindow(doc[i]) :: doc[i].event
  }

  function StepEvents(doc: Document): set<string> {
    set i | 0 <= i < |doc| && IsStep(doc[i]) :: doc[i].event
  }

  function KindOf(event: string, window: set<string>, step: set<string>): Kind {
    if event in window then Window else if event in step then Step else Other
  }

  /** The kinds of the first n elements' transitions that reach a state. */
  function Kinds(doc: Document, n: nat, target: Id, window: set<string>, step: set<string>): set<Kind>
    requires n <= |doc|
  {
    set i | 0 <= i < n && Reaches(doc[i], target) :: KindOf(doc[i].event, window, step)
  }

  function KindsAt(out: map<Id, set<Kind>>, target: Id): set<Kind> {
    if target in out then out[target] else {}
  }

  /** The events sent with a window, and those sent as steps. */
  method SentEvents(doc: Document) returns (window: set<string>, step: set<string>)
    ensures window == WindowEvents(doc) && step == StepEvents(doc)
  {
    window, step := {}, {};
    var n := 0;
    while n < |doc|
      invariant 0 <= n <= |doc|
      invariant window == WindowEvents(doc[..n]) && step == StepEvents(doc[..n])
    {
      var e := doc[n];
      EventsSnoc(doc, n);
      if e.Send? {
        if !e.expr.NoExpr? {
          window := window + {e.event};
        } else if e.delay.Some? {
          if e.delay.value.Zero? { step := step + {e.event}; } else { window := window + {e.event}; }
        }
      }
      n := n + 1;
    }
    assert doc[..n] == doc;
  }

  lemma EventsSnoc(doc: Document, n: nat)
    requires n < |doc|
    ensures WindowEvents(doc[..n + 1]) == WindowEvents(doc[..n]) + if IsWindow(doc[n]) then {doc[n].event} else {}
    ensures StepEvents(doc[..n + 1]) == StepEvents(doc[..n]) + if IsStep(doc[n]) then {doc[n].event} else {}
  {
    var a, b := doc[..n], doc[..n + 1];
    assert forall i | 0 <= i < n :: a[i] == b[i];
    assert b[n] == doc[n];
  }

  /** Every state that a transition reaches, with exactly the kinds of the transitions that reach it. */
  method ReachKinds(doc: Document) returns (out: map<Id, set<Kind>>)
    ensures forall t: Id :: KindsAt(out, t) == Kinds(doc, |doc|, t, WindowEvents(doc), StepEvents(doc))
  {
    var window, step := SentEvents(doc);
    out := map[];
    var n := 0;
    while n < |doc|
      invariant 0 <= n <= |doc|
      invariant forall t: Id :: KindsAt(out, t) == Kinds(doc, n, t, window, step)
    {
      var e := doc[n];
      if e.Transition? {
        var kind := KindOf(e.event, window, step);
        ghost var before := out;
        var j := 0;
        while j < |e.targets|
          invariant 0 <= j <= |e.targets|
          invariant forall t: Id :: KindsAt(out, t) == KindsAt(before, t) + if t in e.targets[..j] then {kind} else {}
        {
          var t := e.targets[j];
          out := out[t := (if t in out then out[t] else {}) + {kind}];
          j := j + 1;
        }
        assert e.targets[..j] == e.targets;
      }
      n := n + 1;
    }
  }

  // ---------- How long the deciding windows are ----------

  /** The lengths of the windows of the first n elements' sends of an event; `None` is one that cannot be read. */
  function EventLengths(doc: Document, n: nat, event: string): set<Option<nat>>
    requires n <= |doc|
  {
    set i | 0 <= i < n && IsWindow(doc[i]) && doc[i].event == event :: WindowLength(doc[i])
  }

  /** The lengths of the windows behind the first n elements' transitions that reach a state. */
  function Lengths(doc: Document, n: nat, target: Id): set<Option<nat>>
    requires n <= |doc|
  {
    set i, d | 0 <= i < n && Reaches(doc[i], target) && d in EventLengths(doc, |doc|, doc[i].event) :: d
  }

  function LengthsAt(out: map<string, seq<Option<nat>>>, key: string): seq<Option<nat>> {
    if key in out then out[key] else []
  }

  method EventDelays(doc: Document) returns (delays: map<string, seq<Option<nat>>>)
    ensures forall e: string, d :: d in LengthsAt(delays, e) <==> d in EventLengths(doc, |doc|, e)
  {
    delays := map[];
    var n := 0;
    while n < |doc|
      invariant 0 <= n <= |doc|
      invariant forall e: string, d :: d in LengthsAt(delays, e) <==> d in EventLengths(doc, n, e)
    {
      var e := doc[n];
      ghost var before := delays;
      if e.Send? {
        if !e.expr.NoExpr? {
          delays := delays[e.event := LengthsAt(delays, e.event) + [None]];
        } else if e.delay.Some? && !e.delay.value.Zero? {
          var d := if e.delay.value.Duration? then Some(e.delay.value.us) else None;
          delays := delays[e.event := LengthsAt(delays, e.event) + [d]];
        }
      }
      forall ev: string, d ensures d in LengthsAt(delays, ev) <==> d in EventLengths(doc, n + 1, ev) {
        assert d in EventLengths(doc, n + 1, ev) <==>
               d in EventLengths(doc, n, ev) || (IsWindow(doc[n]) && doc[n].event == ev && d == WindowLength(doc[n]));
      }
      n := n + 1;
    }
  }

  /** What remains of a map of sequences when `more` is appended under each of these keys. */
  predicate Extends(before: map<Id, seq<Option<nat>>>, targets: seq<Id>, more: seq<Option<nat>>, out: map<Id, seq<Option<nat>>>, t: Id, d: Option<nat>) {
    d in LengthsAt(out, t) <==> d in LengthsAt(before, t) || (t in targets && d in more)
  }

  method ExtendAll(before: map<Id, seq<Option<nat>>>, targets: seq<Id>, more: seq<Option<nat>>) returns (out: map<Id, seq<Option<nat>>>)
    ensures forall t: Id, d :: Extends(before, targets, more, out, t, d)
  {
    out := before;
    var j := 0;
    while j < |targets|
      invariant 0 <= j <= |targets|
      invariant forall t: Id, d :: Extends(before, targets[..j], more, out, t, d)
    {
      var target := targets[j];
      ghost var was := out;
      out := out[target := LengthsAt(out, target) + more];
      ghost var done := targets[..j + 1];
      assert done == targets[..j] + [target];
      forall t: Id, d ensures Extends(before, done, more, out, t, d) {
        assert Extends(before, targets[..j], more, was, t, d);
        if t == target { assert LengthsAt(out, t) == LengthsAt(was, t) + more; }
      }
      j := j + 1;
    }
    assert targets[..j] == targets;
  }

  /** Every state that a transition reaches, with exactly the lengths of the windows behind those transitions. */
  method WindowDelays(doc: Document) returns (out: map<Id, seq<Option<nat>>>)
    ensures forall t: Id, d :: d in LengthsAt(out, t) <==> d in Lengths(doc, |doc|, t)
  {
    var delays := EventDelays(doc);
    out := map[];
    var n := 0;
    while n < |doc|
      invariant 0 <= n <= |doc|
      invariant forall t: Id, d :: d in LengthsAt(out, t) <==> d in Lengths(doc, n, t)
    {
      var e := doc[n];
      ghost var before := out;
      if e.Transition? {
        out := ExtendAll(out, e.targets, LengthsAt(delays, e.event));
      }
      forall t: Id, d ensures d in LengthsAt(out, t) <==> d in Lengths(doc, n + 1, t) {
        assert e.Transition? ==> Extends(before, e.targets, LengthsAt(delays, e.event), out, t, d);
        assert d in Lengths(doc, n + 1, t) <==>
               d in Lengths(doc, n, t) || (Reaches(doc[n], t) && d in EventLengths(doc, |doc|, doc[n].event));
      }
      n := n + 1;
    }
  }

  // ---------- Timers of other states ----------

  function Armers(doc: Document, n: nat, event: string): set<Id>
    requires n <= |doc|
  {
    set i | 0 <= i < n && IsTimer(doc[i]) && doc[i].event == event :: doc[i].state
  }

  lemma ArmersSnoc(doc: Document, n: nat)
    requires n < |doc|
    ensures forall e: string :: Armers(doc, n + 1, e) == Armers(doc, n, e) + ArmerOf(doc[n], e)
  {}

  function ArmerOf(e: Element, event: string): set<Id> {
    if IsTimer(e) && e.event == event then {e.state} else {}
  }

  /** A transition decided by a timer that another state arms too, and whether its own state arms it. */
  datatype Foreign = Foreign(state: Id, event: string, own: bool)

  predicate IsForeign(doc: Document, e: Element) {
    e.Transition? && e.event != "" && Armers(doc, |doc|, e.event) - {e.state} != {}
  }

  function ForeignOf(doc: Document, e: Element): Foreign {
    Foreign(e.state, e.event, e.state in Armers(doc, |doc|, e.event))
  }

  function Foreigns(doc: Document, target: Id): set<Foreign> {
    set i | 0 <= i < |doc| && Reaches(doc[i], target) && IsForeign(doc, doc[i]) :: ForeignOf(doc, doc[i])
  }

  function ForeignAt(out: map<Id, seq<Foreign>>, target: Id): seq<Foreign> {
    if target in out then out[target] else []
  }

  datatype Arc = Arc(state: Id, event: string, target: Id)

  predicate IsArc(doc: Document, n: nat, a: Arc)
    requires n <= |doc|
  {
    a.event != "" && exists i | 0 <= i < n :: Reaches(doc[i], a.target) && doc[i].state == a.state && doc[i].event == a.event
  }

  function ArmersAt(armers: map<string, set<Id>>, event: string): set<Id> {
    if event in armers then armers[event] else {}
  }

  /** Which states arm which timers, and every transition that names an event, one entry per target. */
  method ArmersAndArcs(doc: Document) returns (armers: map<string, set<Id>>, arcs: seq<Arc>)
    ensures forall e: string :: ArmersAt(armers, e) == Armers(doc, |doc|, e)
    ensures forall a :: a in arcs <==> IsArc(doc, |doc|, a)
  {
    armers, arcs := map[], [];
    var n := 0;
    while n < |doc|
      invariant 0 <= n <= |doc|
      invariant forall e: string :: ArmersAt(armers, e) == Armers(doc, n, e)
      invariant forall a :: a in arcs <==> IsArc(doc, n, a)
    {
      var e := doc[n];
      ghost var was := armers;
      ArmersSnoc(doc, n);
      if e.Send? {
        if (e.expr.Expr? || (e.delay.Some? && !e.delay.value.Blank?)) && e.delay != Some(Zero) {
          armers := armers[e.event := ArmersAt(armers, e.event) + {e.state}];
        }
        assert forall ev: string :: ArmersAt(armers, ev) == ArmersAt(was, ev) + ArmerOf(e, ev);
      } else if e.event != "" {
        arcs := AppendArcs(arcs, e);
      }
      forall a ensures a in arcs <==> IsArc(doc, n + 1, a) {
        assert IsArc(doc, n + 1, a) <==>
               IsArc(doc, n, a) || (a.event != "" && Reaches(doc[n], a.target) && doc[n].state == a.state && doc[n].event == a.event);
      }
      n := n + 1;
    }
  }

  method AppendArcs(before: seq<Arc>, e: Element) returns (arcs: seq<Arc>)
    requires e.Transition?
    ensures forall a :: a in arcs <==> a in before || (a.target in e.targets && a == Arc(e.state, e.event, a.target))
  {
    arcs := before;
    var j := 0;
    while j < |e.targets|
      invariant 0 <= j <= |e.targets|
      invariant forall a :: a in arcs <==> a in before || (a.target in e.targets[..j] && a == Arc(e.state, e.event, a.target))
    {
      arcs := arcs + [Arc(e.state, e.event, e.targets[j])];
      j := j + 1;
    }
    assert e.targets[..j] == e.targets;
  }

  /** Every state decided by a timer that a state other than the deciding one arms, with exactly those transitions. */
  method ForeignWindowTimers(doc: Document) returns (out: map<Id, seq<Foreign>>)
    ensures forall t: Id, f :: f in ForeignAt(out, t) <==> f in Foreigns(doc, t)
  {
    var armers, arcs := ArmersAndArcs(doc);
    out := map[];
    var n := 0;
    while n < |arcs|
      invariant 0 <= n <= |arcs|
      invariant forall t: Id, f :: f in ForeignAt(out, t) <==> StaleAmong(doc, arcs[..n], t, f)
    {
      var a := arcs[n];
      var sources := ArmersAt(armers, a.event);
      ghost var was := out;
      if sources - {a.state} != {} {
        out := out[a.target := ForeignAt(out, a.target) + [Foreign(a.state, a.event, a.state in sources)]];
      }
      assert arcs[..n + 1] == arcs[..n] + [a];
      forall t: Id, f ensures f in ForeignAt(out, t) <==> StaleAmong(doc, arcs[..n + 1], t, f) {
        assert f in ForeignAt(out, t) <==> f in ForeignAt(was, t) || (a.target == t && f == Stale(doc, a) && IsStale(doc, a));
      }
      n := n + 1;
    }
    assert arcs[..n] == arcs;
    forall t: Id, f ensures f in ForeignAt(out, t) <==> f in Foreigns(doc, t) {
      StaleAreForeign(doc, arcs, t, f);
    }
  }

  predicate IsStale(doc: Document, a: Arc) {
    Armers(doc, |doc|, a.event) - {a.state} != {}
  }

  function Stale(doc: Document, a: Arc): Foreign {
    Foreign(a.state, a.event, a.state in Armers(doc, |doc|, a.event))
  }

  predicate StaleAmong(doc: Document, arcs: seq<Arc>, t: Id, f: Foreign) {
    exists a <- arcs :: a.target == t && f == Stale(doc, a) && IsStale(doc, a)
  }

  lemma StaleAreForeign(doc: Document, arcs: seq<Arc>, t: Id, f: Foreign)
    requires forall a :: a in arcs <==> IsArc(doc, |doc|, a)
    ensures f in Foreigns(doc, t) <==> StaleAmong(doc, arcs, t, f)
  {
    if f in Foreigns(doc, t) {
      var i :| 0 <= i < |doc| && Reaches(doc[i], t) && IsForeign(doc, doc[i]) && f == ForeignOf(doc, doc[i]);
      assert IsArc(doc, |doc|, Arc(doc[i].state, doc[i].event, t));
      assert Arc(doc[i].state, doc[i].event, t) in arcs;
    }
    if a :| a in arcs && a.target == t && f == Stale(doc, a) && IsStale(doc, a) {
      assert IsArc(doc, |doc|, a);
    }
  }

  // ---------- Findings ----------

  datatype Class = Pass | Fail | OtherClass
  datatype Role = NoRole | Conformant | ConformantAbsence | ObservedQuiescence | FaultInjectionInert | OtherRole
  datatype Verdict = Verdict(cls: Class, role: Role)

  /** A declared bound: the listen time parameter, a literal duration, or something else. */
  datatype Bound = ListenTime | Literal(us: nat) | Unparseable

  function Resolve(b: Bound, listen: nat): Option<nat> {
    match b
    case ListenTime => Some(listen)
    case Literal(us) => Some(us)
    case Unparseable => None
  }

  datatype Finding =
    | BoundMisplaced(state: Id)
    | BoundUnparseable(state: Id)
    | StaleTimer(state: Id, why: Foreign)
    | QuiescenceBound(state: Id)
    | QuiescenceWindow(state: Id, length: Option<nat>)
    | QuiescenceReach(state: Id)

  /** What the audit works from: the finals' verdicts and bounds, and the three maps above. */
  datatype Evidence = Evidence(
    done: map<Id, Verdict>, bounds: map<Id, Bound>, listen: nat,
    reached: map<Id, set<Kind>>, delays: map<Id, seq<Option<nat>>>, foreign: map<Id, seq<Foreign>>)

  function VerdictAt(done: map<Id, Verdict>, state: Id): Verdict {
    if state in done then done[state] else Verdict(OtherClass, NoRole)
  }

  /** Only a verdict that claims an absence may carry a bound. */
  predicate BoundBelongs(v: Verdict) {
    && v.role != OtherRole
    && (v.cls == Fail ==> v.role == ObservedQuiescence || v.role == FaultInjectionInert)
  }

  predicate ClaimsAbsence(v: Verdict) {
    v.cls == Pass || v.role == ObservedQuiescence || v.role == FaultInjectionInert
  }

  /** The window is shorter than the bound, or cannot be shown not to be. */
  predicate TooShort(length: Option<nat>, bound: Option<nat>) {
    bound.Some? && (length.None? || length.value < bound.value)
  }

  /** When each finding is due. */
  predicate Warranted(ev: Evidence, f: Finding) {
    match f
    case BoundMisplaced(t) => t in ev.bounds && !BoundBelongs(VerdictAt(ev.done, t))
    case BoundUnparseable(t) => t in ev.bounds && BoundBelongs(VerdictAt(ev.done, t)) && Resolve(ev.bounds[t], ev.listen) == None
    case StaleTimer(t, why) =>
      && t in ev.done && why in ForeignAt(ev.foreign, t)
      && (ev.done[t].role == ObservedQuiescence || (ClaimsAbsence(ev.done[t]) && why.own))
    case QuiescenceBound(t) => t in ev.done && ev.done[t].role == ObservedQuiescence && t !in ev.bounds
    case QuiescenceWindow(t, length) =>
      && t in ev.done && ev.done[t].role == ObservedQuiescence && t in ev.bounds
      && length in LengthsAt(ev.delays, t) && TooShort(length, Resolve(ev.bounds[t], ev.listen))
    case QuiescenceReach(t) => t in ev.done && ev.done[t].role == ObservedQuiescence && KindsAt(ev.reached, t) != {Window}
  }

  predicate AboutBound(f: Finding) { f.BoundMisplaced? || f.BoundUnparseable? }
  predicate AboutTimer(f: Finding) { f.StaleTimer? }
  predicate AboutWindow(f: Finding) { f.QuiescenceBound? || f.QuiescenceWindow? || f.QuiescenceReach? }

  method BoundFindings(ev: Evidence) returns (fs: seq<Finding>)
    ensures forall f :: f in fs <==> AboutBound(f) && Warranted(ev, f)
  {
    fs := [];
    var todo := ev.bounds.Keys;
    while todo != {}
      invariant todo <= ev.bounds.Keys
      invariant forall f :: f in fs <==> AboutBound(f) && Warranted(ev, f) && f.state !in todo
      decreases |todo|
    {
      var t :| t in todo;
      todo := todo - {t};
      if !BoundBelongs(VerdictAt(ev.done, t)) {
        fs := fs + [BoundMisplaced(t)];
      } else if Resolve(ev.bounds[t], ev.listen).None? {
        fs := fs + [BoundUnparseable(t)];
      }
    }
  }

  method TimerFindingsAt(ev: Evidence, t: Id, before: seq<Finding>) returns (fs: seq<Finding>)
    requires t in ev.done
    ensures forall f :: f in fs <==> f in before || (AboutTimer(f) && Warranted(ev, f) && f.state == t)
  {
    fs := before;
    var whys := ForeignAt(ev.foreign, t);
    var j := 0;
    while j < |whys|
      invariant 0 <= j <= |whys|
      invariant forall f :: f in fs <==> f in before || (AboutTimer(f) && Warranted(ev, f) && f.state == t && f.why in whys[..j])
    {
      assert whys[..j + 1] == whys[..j] + [whys[j]];
      if ev.done[t].role == ObservedQuiescence || (ClaimsAbsence(ev.done[t]) && whys[j].own) {
        fs := fs + [StaleTimer(t, whys[j])];
      }
      j := j + 1;
    }
    assert whys[..j] == whys;
  }

  method TimerFindings(ev: Evidence) returns (fs: seq<Finding>)
    ensures forall f :: f in fs <==> AboutTimer(f) && Warranted(ev, f)
  {
    fs := [];
    var todo := ev.done.Keys;
    while todo != {}
      invariant todo <= ev.done.Keys
      invariant forall f :: f in fs <==> AboutTimer(f) && Warranted(ev, f) && f.state !in todo
      decreases |todo|
    {
      var t :| t in todo;
      todo := todo - {t};
      fs := TimerFindingsAt(ev, t, fs);
    }
  }

  method LengthFindingsAt(ev: Evidence, t: Id, before: seq<Finding>) returns (fs: seq<Finding>)
    requires t in ev.done && ev.done[t].role == ObservedQuiescence && t in ev.bounds
    ensures forall f :: f in fs <==> f in before || (f.QuiescenceWindow? && Warranted(ev, f) && f.state == t)
  {
    fs := before;
    var bound := Resolve(ev.bounds[t], ev.listen);
    var lengths := LengthsAt(ev.delays, t);
    var j := 0;
    while j < |lengths|
      invariant 0 <= j <= |lengths|
      invariant forall f :: f in fs <==> f in before || (f.QuiescenceWindow? && Warranted(ev, f) && f.state == t && f.length in lengths[..j])
    {
      assert lengths[..j + 1] == lengths[..j] + [lengths[j]];
      if TooShort(lengths[j], bound) {
        fs := fs + [QuiescenceWindow(t, lengths[j])];
      }
      j := j + 1;
    }
    assert lengths[..j] == lengths;
  }

  method WindowFindings(ev: Evidence) returns (fs: seq<Finding>)
    ensures forall f :: f in fs <==> AboutWindow(f) && Warranted(ev, f)
  {
    fs := [];
    var todo := ev.done.Keys;
    while todo != {}
      invariant todo <= ev.done.Keys
      invariant forall f :: f in fs <==> AboutWindow(f) && Warranted(ev, f) && f.state !in todo
      decreases |todo|
    {
      var t :| t in todo;
      todo := todo - {t};
      if ev.done[t].role == ObservedQuiescence {
        if t !in ev.bounds {
          fs := fs + [QuiescenceBound(t)];
        } else {
          fs := LengthFindingsAt(ev, t, fs);
        }
        if KindsAt(ev.reached, t) != {Window} {
          fs := fs + [QuiescenceReach(t)];
        }
      }
    }
  }

  /** Exactly the warranted findings. */
  method QuiescenceFindings(ev: Evidence) returns (fs: seq<Finding>)
    ensures forall f :: f in fs <==> Warranted(ev, f)
  {
    var a := BoundFindings(ev);
    var b := TimerFindings(ev);
    var c := WindowFindings(ev);
    fs := a + b + c;
  }

  // ---------- What a clean audit says about the document ----------

  /** A final is secured for a bound when something reaches it, and every transition into it is decided by windows, of
      which all can be read, all are at least as long as the bound, and none is armed by another state. */
  predicate Secured(doc: Document, final: Id, bound: nat) {
    && (exists i | 0 <= i < |doc| :: Reaches(doc[i], final))
    && forall i | 0 <= i < |doc| :: Reaches(doc[i], final) ==> SecuredBy(doc, doc[i], bound)
  }

  predicate SecuredBy(doc: Document, e: Element, bound: nat) {
    && e.event in WindowEvents(doc)
    && (forall k | 0 <= k < |doc| :: IsWindow(doc[k]) && doc[k].event == e.event ==> LongEnough(WindowLength(doc[k]), bound))
    && (e.Transition? && e.event != "" ==> forall k | 0 <= k < |doc| :: IsTimer(doc[k]) && doc[k].event == e.event ==> doc[k].state == e.state)
  }

  predicate LongEnough(length: Option<nat>, bound: nat) {
    length.Some? && length.value >= bound
  }

  /** A window of this length cannot be shown to last as long as the declared bound: the listen time, or the literal. */
  predicate FallsShort(length: Option<nat>, b: Bound, listen: nat) {
    match b
    case ListenTime => length == None || length.value < listen
    case Literal(us) => length == None || length.value < us
    case Unparseable => false
  }

  /** What is reported, said on the document, the verdicts and the declared bounds themselves. A bound is misplaced on a
      role without a meaning, and on a fail that is neither a silence nor an inert fault injection; a final claims an
      absence by passing, by silence, or by an inert fault injection. */
  predicate Reported(doc: Document, done: map<Id, Verdict>, bounds: map<Id, Bound>, listen: nat, f: Finding) {
    var v := if f.state in done then done[f.state] else Verdict(OtherClass, NoRole);
    var misplaced := v.role == OtherRole || (v.cls == Fail && v.role != ObservedQuiescence && v.role != FaultInjectionInert);
    match f
    case BoundMisplaced(t) => t in bounds && misplaced
    case BoundUnparseable(t) => t in bounds && !misplaced && bounds[t] == Unparseable
    case StaleTimer(t, why) =>
      && t in done && why in Foreigns(doc, t)
      && (v.role == ObservedQuiescence || (why.own && (v.cls == Pass || v.role == FaultInjectionInert)))
    case QuiescenceBound(t) => t in done && v.role == ObservedQuiescence && t !in bounds
    case QuiescenceWindow(t, length) =>
      t in done && v.role == ObservedQuiescence && t in bounds && length in Lengths(doc, |doc|, t) && FallsShort(length, bounds[t], listen)
    case QuiescenceReach(t) => t in done && v.role == ObservedQuiescence && Kinds(doc, |doc|, t, WindowEvents(doc), StepEvents(doc)) != {Window}
  }

  lemma WarrantedIsReported(doc: Document, ev: Evidence, f: Finding)
    requires Faithful(doc, ev)
    ensures Warranted(ev, f) <==> Reported(doc, ev.done, ev.bounds, ev.listen, f)
  {
    match f
    case StaleTimer(t, why) => assert why in ForeignAt(ev.foreign, t) <==> why in Foreigns(doc, t);
    case QuiescenceWindow(t, length) => assert length in LengthsAt(ev.delays, t) <==> length in Lengths(doc, |doc|, t);
    case QuiescenceReach(t) => assert KindsAt(ev.reached, t) == Kinds(doc, |doc|, t, WindowEvents(doc), StepEvents(doc));
    case _ =>
  }

  /** The lengths behind a final are those of the windows whose event takes some transition into it. */
  lemma LengthsAreOfWindows(doc: Document, t: Id, d: Option<nat>)
    ensures d in Lengths(doc, |doc|, t) <==>
      exists i, k | 0 <= i < |doc| && 0 <= k < |doc| :: Reaches(doc[i], t) && IsWindow(doc[k]) && doc[k].event == doc[i].event && d == WindowLength(doc[k])
  {
    if d in Lengths(doc, |doc|, t) {
      var i :| 0 <= i < |doc| && Reaches(doc[i], t) && d in EventLengths(doc, |doc|, doc[i].event);
      var k :| 0 <= k < |doc| && IsWindow(doc[k]) && doc[k].event == doc[i].event && d == WindowLength(doc[k]);
      assert Reaches(doc[i], t) && IsWindow(doc[k]) && doc[k].event == doc[i].event;
    }
    if i, k :| 0 <= i < |doc| && 0 <= k < |doc| && Reaches(doc[i], t) && IsWindow(doc[k]) && doc[k].event == doc[i].event && d == WindowLength(doc[k]) {
      assert d in EventLengths(doc, |doc|, doc[i].event);
    }
  }

  /** The audit of a whole machine. It finds nothing exactly when every declared bound belongs and can be read, every
      `observed_quiescence` final declares one and is secured for it, and no other verdict that claims an absence is
      decided by a timer that its own state and another one both arm. */
  method Audit(doc: Document, done: map<Id, Verdict>, bounds: map<Id, Bound>, listen: nat) returns (fs: seq<Finding>)
    ensures fs == [] <==> Clean(doc, done, bounds, listen)
    ensures forall f :: f in fs <==> Reported(doc, done, bounds, listen, f)
  {
    var reached := ReachKinds(doc);
    var delays := WindowDelays(doc);
    var foreign := ForeignWindowTimers(doc);
    var ev := Evidence(done, bounds, listen, reached, delays, foreign);
    fs := QuiescenceFindings(ev);
    CleanMeansSecured(doc, ev);
    forall f ensures Warranted(ev, f) <==> Reported(doc, done, bounds, listen, f) {
      WarrantedIsReported(doc, ev, f);
    }
    assert fs != [] ==> fs[0] in fs;
  }

  predicate Clean(doc: Document, done: map<Id, Verdict>, bounds: map<Id, Bound>, listen: nat) {
    && (forall t | t in bounds :: BoundBelongs(VerdictAt(done, t)) && Resolve(bounds[t], listen).Some?)
    && (forall t | t in done :: done[t].role == ObservedQuiescence ==>
         t in bounds && Resolve(bounds[t], listen).Some? && Secured(doc, t, Resolve(bounds[t], listen).value))
    && (forall t | t in done :: ClaimsAbsence(done[t]) ==> forall f <- Foreigns(doc, t) :: !f.own)
  }

  lemma KindsAreWindow(doc: Document, t: Id)
    ensures Kinds(doc, |doc|, t, WindowEvents(doc), StepEvents(doc)) == {Window} <==>
      && (exists i | 0 <= i < |doc| :: Reaches(doc[i], t))
      && (forall i | 0 <= i < |doc| :: Reaches(doc[i], t) ==> doc[i].event in WindowEvents(doc))
  {
    var kinds := Kinds(doc, |doc|, t, WindowEvents(doc), StepEvents(doc));
    forall i | 0 <= i < |doc| && Reaches(doc[i], t) ensures KindOf(doc[i].event, WindowEvents(doc), StepEvents(doc)) in kinds {}
    if kinds == {Window} {
      assert Window in kinds;
    }
  }

  /** Every window behind a transition into the state is readable and long enough. */
  predicate AllLong(doc: Document, t: Id, bound: nat) {
    forall i, k | 0 <= i < |doc| && 0 <= k < |doc| ::
      Reaches(doc[i], t) && IsWindow(doc[k]) && doc[k].event == doc[i].event ==> LongEnough(WindowLength(doc[k]), bound)
  }

  lemma LengthsAreLong(doc: Document, t: Id, bound: nat)
    ensures (forall d <- Lengths(doc, |doc|, t) :: !TooShort(d, Some(bound))) <==> AllLong(doc, t, bound)
  {
    if forall d <- Lengths(doc, |doc|, t) :: !TooShort(d, Some(bound)) {
      forall i, k | 0 <= i < |doc| && 0 <= k < |doc| && Reaches(doc[i], t) && IsWindow(doc[k]) && doc[k].event == doc[i].event
        ensures LongEnough(WindowLength(doc[k]), bound)
      {
        assert WindowLength(doc[k]) in EventLengths(doc, |doc|, doc[i].event);
        assert WindowLength(doc[k]) in Lengths(doc, |doc|, t);
      }
    }
  }

  /** No timer that decides the state is armed by a state other than the deciding one. */
  predicate NoneForeign(doc: Document, t: Id) {
    forall i, k | 0 <= i < |doc| && 0 <= k < |doc| ::
      Reaches(doc[i], t) && doc[i].event != "" && IsTimer(doc[k]) && doc[k].event == doc[i].event ==> doc[k].state == doc[i].state
  }

  lemma ForeignExists(doc: Document, t: Id, i: nat, k: nat)
    requires i < |doc| && k < |doc| && Reaches(doc[i], t) && doc[i].event != ""
    requires IsTimer(doc[k]) && doc[k].event == doc[i].event && doc[k].state != doc[i].state
    ensures ForeignOf(doc, doc[i]) in Foreigns(doc, t)
  {
    assert doc[k].state in Armers(doc, |doc|, doc[i].event) - {doc[i].state};
    assert IsForeign(doc, doc[i]);
  }

  lemma ForeignsAreNone(doc: Document, t: Id)
    ensures Foreigns(doc, t) == {} <==> NoneForeign(doc, t)
  {
    if Foreigns(doc, t) == {} {
      forall i, k | 0 <= i < |doc| && 0 <= k < |doc| && Reaches(doc[i], t) && doc[i].event != "" && IsTimer(doc[k]) && doc[k].event == doc[i].event
        ensures doc[k].state == doc[i].state
      {
        if doc[k].state != doc[i].state {
          ForeignExists(doc, t, i, k);
        }
      }
    }
    if NoneForeign(doc, t) {
      forall i | 0 <= i < |doc| && Reaches(doc[i], t) ensures !IsForeign(doc, doc[i]) {}
    }
  }

  lemma SecuredInParts(doc: Document, t: Id, bound: nat)
    ensures Secured(doc, t, bound) <==>
      Kinds(doc, |doc|, t, WindowEvents(doc), StepEvents(doc)) == {Window} && AllLong(doc, t, bound) && NoneForeign(doc, t)
  {
    KindsAreWindow(doc, t);
    if Secured(doc, t, bound) {
      forall i | 0 <= i < |doc| && Reaches(doc[i], t) ensures SecuredBy(doc, doc[i], bound) {}
    }
  }

  /** The three maps say what the document says. */
  ghost predicate Faithful(doc: Document, ev: Evidence) {
    && (forall t: Id :: KindsAt(ev.reached, t) == Kinds(doc, |doc|, t, WindowEvents(doc), StepEvents(doc)))
    && (forall t: Id, d :: d in LengthsAt(ev.delays, t) <==> d in Lengths(doc, |doc|, t))
    && (forall t: Id, f :: f in ForeignAt(ev.foreign, t) <==> f in Foreigns(doc, t))
  }

  /** For one `observed_quiescence` final with a readable bound: nothing warranted is the same as secured. */
  lemma FinalSecured(doc: Document, ev: Evidence, t: Id)
    requires Faithful(doc, ev)
    requires t in ev.done && ev.done[t].role == ObservedQuiescence && t in ev.bounds && Resolve(ev.bounds[t], ev.listen).Some?
    ensures Secured(doc, t, Resolve(ev.bounds[t], ev.listen).value) <==>
      && !Warranted(ev, QuiescenceReach(t))
      && (forall d :: !Warranted(ev, QuiescenceWindow(t, d)))
      && (forall why :: !Warranted(ev, StaleTimer(t, why)))
  {
    var bound := Resolve(ev.bounds[t], ev.listen).value;
    SecuredInParts(doc, t, bound);
    LengthsAreLong(doc, t, bound);
    ForeignsAreNone(doc, t);
    forall d ensures Warranted(ev, QuiescenceWindow(t, d)) <==> d in Lengths(doc, |doc|, t) && TooShort(d, Some(bound)) {}
    forall why ensures Warranted(ev, StaleTimer(t, why)) <==> why in Foreigns(doc, t) {}
  }

  lemma NoFindingsMeansClean(doc: Document, ev: Evidence)
    requires Faithful(doc, ev) && forall f: Finding :: !Warranted(ev, f)
    ensures Clean(doc, ev.done, ev.bounds, ev.listen)
  {
    forall t | t in ev.bounds ensures BoundBelongs(VerdictAt(ev.done, t)) && Resolve(ev.bounds[t], ev.listen).Some? {
      assert !Warranted(ev, BoundMisplaced(t)) && !Warranted(ev, BoundUnparseable(t));
    }
    forall t | t in ev.done && ev.done[t].role == ObservedQuiescence
      ensures t in ev.bounds && Resolve(ev.bounds[t], ev.listen).Some? && Secured(doc, t, Resolve(ev.bounds[t], ev.listen).value)
    {
      assert !Warranted(ev, QuiescenceBound(t));
      FinalSecured(doc, ev, t);
    }
    forall t, f | t in ev.done && ClaimsAbsence(ev.done[t]) && f in Foreigns(doc, t) ensures !f.own {
      assert !Warranted(ev, StaleTimer(t, f));
    }
  }

  lemma CleanMeansNoFindings(doc: Document, ev: Evidence, f: Finding)
    requires Faithful(doc, ev) && Clean(doc, ev.done, ev.bounds, ev.listen)
    ensures !Warranted(ev, f)
  {
    if AboutWindow(f) || AboutTimer(f) {
      if f.state in ev.done && ev.done[f.state].role == ObservedQuiescence {
        FinalSecured(doc, ev, f.state);
      }
    }
  }

  lemma CleanMeansSecured(doc: Document, ev: Evidence)
    requires Faithful(doc, ev)
    ensures (forall f: Finding :: !Warranted(ev, f)) <==> Clean(doc, ev.done, ev.bounds, ev.listen)
  {
    if forall f: Finding :: !Warranted(ev, f) {
      NoFindingsMeansClean(doc, ev);
    }
    if Clean(doc, ev.done, ev.bounds, ev.listen) {
      forall f: Finding ensures !Warranted(ev, f) { CleanMeansNoFindings(doc, ev, f); }
    }
  }
}
