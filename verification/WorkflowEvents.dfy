/**
 The workflow audit: which events can raise a workflow, its callers' events included, and which workflows run a job off
 GitHub's own runners on an event that is not reserved to maintainers. Workflows may call one another in cycles.
 */
module WorkflowEvents {
  import opened FiniteSets

  type Name = string
  type Event = string

  const WORKFLOW_CALL: Event := "workflow_call"
  const MAINTAINER_ONLY_EVENTS: set<Event> := {"push", "workflow_dispatch", "schedule"}

  /** A workflow: the events it declares, the in-repository workflows it calls, and its jobs that are not provably on a
      GitHub-hosted runner. */
  datatype Workflow = Workflow(declared: set<Event>, callees: set<Name>, unproven: set<string>)

  type Workflows = map<Name, Workflow>
  type Callers = map<Name, set<Name>>

  // ---------- Every local call chain ----------

  /** The events that raise a workflow by itself. */
  function Own(w: Workflow): set<Event> {
    w.declared - {WORKFLOW_CALL}
  }

  /** `caller` hands its events to `callee`: it calls it, and the callee accepts calls. */
  predicate Inherits(ws: Workflows, callee: Name, caller: Name) {
    callee in ws && caller in ws && WORKFLOW_CALL in ws[callee].declared && callee in ws[caller].callees
  }

  /** A call chain read from the callee up. */
  predicate Chain(ws: Workflows, p: seq<Name>) {
    && p != [] && (forall i | 0 <= i < |p| :: p[i] in ws)
    && (forall i | 0 < i < |p| :: Inherits(ws, p[i - 1], p[i]))
  }

  predicate ChainTo(ws: Workflows, p: seq<Name>, name: Name, event: Event) {
    Chain(ws, p) && p[0] == name && event in Own(ws[p[|p| - 1]])
  }

  /** An event reaches a workflow when some call chain, however long, ends in one that it raises. */
  ghost predicate Raises(ws: Workflows, event: Event, name: Name) {
    exists p :: ChainTo(ws, p, name, event)
  }

  // ---------- The caller map ----------

  function CallersOf(callers: Callers, name: Name): set<Name> {
    if name in callers then callers[name] else {}
  }

  ghost predicate IsCallerMap(ws: Workflows, callers: Callers) {
    forall callee, caller :: caller in CallersOf(callers, callee) <==> caller in ws && callee in ws[caller].callees
  }

  /** `after` is `before` with `name` among the callers of these callees. */
  ghost predicate Adds(before: Callers, after: Callers, name: Name, callees: set<Name>) {
    forall callee, caller :: caller in CallersOf(after, callee) <==> caller in CallersOf(before, callee) || (caller == name && callee in callees)
  }

  lemma AddsOne(before: Callers, callers: Callers, name: Name, done: set<Name>, callee: Name)
    requires Adds(before, callers, name, done)
    ensures Adds(before, callers[callee := CallersOf(callers, callee) + {name}], name, done + {callee})
  {
    var after := callers[callee := CallersOf(callers, callee) + {name}];
    forall c, caller ensures caller in CallersOf(after, c) <==> caller in CallersOf(before, c) || (caller == name && c in done + {callee}) {
      assert CallersOf(after, c) == if c == callee then CallersOf(callers, c) + {name} else CallersOf(callers, c);
      assert caller in CallersOf(callers, c) <==> caller in CallersOf(before, c) || (caller == name && c in done);
    }
  }

  method AddCaller(before: Callers, name: Name, callees: set<Name>) returns (callers: Callers)
    ensures Adds(before, callers, name, callees)
  {
    callers := before;
    var left := callees;
    while left != {}
      invariant left <= callees && Adds(before, callers, name, callees - left)
      decreases |left|
    {
      var callee :| callee in left;
      AddsOne(before, callers, name, callees - left, callee);
      assert callees - (left - {callee}) == callees - left + {callee};
      left := left - {callee};
      callers := callers[callee := CallersOf(callers, callee) + {name}];
    }
    assert callees - {} == callees;
  }

  /** The callers recorded once all workflows but those in `todo` have been gone through. */
  ghost predicate Recorded(ws: Workflows, callers: Callers, todo: set<Name>) {
    forall callee, caller :: caller in CallersOf(callers, callee) <==> caller in ws && caller !in todo && callee in ws[caller].callees
  }

  lemma RecordedNone(ws: Workflows, none: Callers)
    requires none == map[]
    ensures Recorded(ws, none, ws.Keys)
  {
    assert forall callee :: CallersOf(none, callee) == {};
  }

  lemma RecordedOne(ws: Workflows, before: Callers, callers: Callers, name: Name, todo: set<Name>)
    requires name in todo && name in ws && Recorded(ws, before, todo) && Adds(before, callers, name, ws[name].callees)
    ensures Recorded(ws, callers, todo - {name})
  {
    forall callee, caller
      ensures caller in CallersOf(callers, callee) <==> caller in ws && caller !in todo - {name} && callee in ws[caller].callees
    {
      assert caller in CallersOf(callers, callee) <==> caller in CallersOf(before, callee) || (caller == name && callee in ws[name].callees);
      assert caller in CallersOf(before, callee) <==> caller in ws && caller !in todo && callee in ws[caller].callees;
    }
  }

  method MakeCallers(ws: Workflows) returns (callers: Callers)
    ensures IsCallerMap(ws, callers)
  {
    callers := map[];
    RecordedNone(ws, callers);
    var todo := ws.Keys;
    while todo != {}
      invariant todo <= ws.Keys && Recorded(ws, callers, todo)
      decreases |todo|
    {
      var name :| name in todo;
      var more := AddCaller(callers, name, ws[name].callees);
      RecordedOne(ws, callers, more, name, todo);
      callers := more;
      todo := todo - {name};
    }
  }

  // ---------- Effective events ----------

  /** The recursion of the audit, cut where a name comes round again. */
  ghost function Effective(ws: Workflows, callers: Callers, name: Name, seen: set<Name>): set<Event>
    requires name in ws
    decreases |ws.Keys - seen|
  {
    if WORKFLOW_CALL !in ws[name].declared || name in seen then Own(ws[name])
    else
      Shrinks(ws.Keys - seen, ws.Keys - (seen + {name}), name);
      Own(ws[name]) + (set c, e | c in CallersOf(callers, name) && c in ws && e in Effective(ws, callers, c, seen + {name}) :: e)
  }

  // ---------- The cut recursion misses nothing ----------

  lemma {:induction false} EffectiveHasChain(ws: Workflows, callers: Callers, name: Name, seen: set<Name>, event: Event)
    requires IsCallerMap(ws, callers) && name in ws && event in Effective(ws, callers, name, seen)
    ensures Raises(ws, event, name)
    decreases |ws.Keys - seen|
  {
    if event in Own(ws[name]) {
      assert ChainTo(ws, [name], name, event);
    } else {
      Shrinks(ws.Keys - seen, ws.Keys - (seen + {name}), name);
      var c :| c in CallersOf(callers, name) && c in ws && event in Effective(ws, callers, c, seen + {name});
      EffectiveHasChain(ws, callers, c, seen + {name}, event);
      RaisesThrough(ws, event, name, c);
    }
  }

  /** Closure: a caller's events reach its callee. */
  lemma RaisesThrough(ws: Workflows, event: Event, callee: Name, caller: Name)
    requires Inherits(ws, callee, caller) && Raises(ws, event, caller)
    ensures Raises(ws, event, callee)
  {
    var p :| ChainTo(ws, p, caller, event);
    assert ChainTo(ws, [callee] + p, callee, event);
  }

  /** No name twice. */
  predicate Simple(p: seq<Name>) {
    forall i, j | 0 <= i < j < |p| :: p[i] != p[j]
  }

  /** Every chain has a simple one with the same ends: cut out what lies between two visits of a name. */
  lemma {:induction false} Shorten(ws: Workflows, p: seq<Name>, name: Name, event: Event) returns (q: seq<Name>)
    requires ChainTo(ws, p, name, event)
    ensures ChainTo(ws, q, name, event) && Simple(q)
    decreases |p|
  {
    if Simple(p) {
      q := p;
    } else {
      var i, j :| 0 <= i < j < |p| && p[i] == p[j];
      CutIsChain(ws, p, i, j);
      var cut := p[..i] + p[j..];
      assert cut[|cut| - 1] == p[|p| - 1];
      q := Shorten(ws, cut, name, event);
    }
  }

  lemma CutIsChain(ws: Workflows, p: seq<Name>, i: nat, j: nat)
    requires Chain(ws, p) && i < j < |p| && p[i] == p[j]
    ensures Chain(ws, p[..i] + p[j..]) && (p[..i] + p[j..])[0] == p[0]
  {
    var cut := p[..i] + p[j..];
    forall k | 0 <= k < |cut| ensures cut[k] in ws {
      assert cut[k] == p[if k < i then k else k + (j - i)];
    }
    forall k | 0 < k < |cut| ensures Inherits(ws, cut[k - 1], cut[k]) {
      if k < i {
        assert cut[k - 1] == p[k - 1] && cut[k] == p[k];
      } else if k == i {
        assert cut[k - 1] == p[i - 1] && cut[k] == p[i];
      } else {
        assert cut[k - 1] == p[k - 1 + (j - i)] && cut[k] == p[k + (j - i)];
      }
    }
  }

  lemma {:induction false} ChainIsEffective(ws: Workflows, callers: Callers, p: seq<Name>, name: Name, seen: set<Name>, event: Event)
    requires IsCallerMap(ws, callers) && ChainTo(ws, p, name, event) && Simple(p)
    requires forall i | 0 <= i < |p| :: p[i] !in seen
    ensures event in Effective(ws, callers, name, seen)
    decreases |p|
  {
    if |p| > 1 {
      var q := p[1..];
      assert Inherits(ws, p[0], p[1]);
      assert ChainTo(ws, q, p[1], event);
      ChainIsEffective(ws, callers, q, p[1], seen + {name}, event);
      assert p[1] in CallersOf(callers, name);
    }
  }

  /** The effective events of a workflow are exactly those that reach it by some call chain, on any call graph. */
  lemma EffectiveIsRaised(ws: Workflows, callers: Callers, name: Name, event: Event)
    requires IsCallerMap(ws, callers) && name in ws
    ensures event in Effective(ws, callers, name, {}) <==> Raises(ws, event, name)
  {
    if event in Effective(ws, callers, name, {}) {
      EffectiveHasChain(ws, callers, name, {}, event);
    }
    if Raises(ws, event, name) {
      var p :| ChainTo(ws, p, name, event);
      var q := Shorten(ws, p, name, event);
      ChainIsEffective(ws, callers, q, name, {}, event);
    }
  }

  /** The audit's computation; from an empty `seen` it finds every event that reaches the workflow, and no other. */
  method EffectiveEvents(name: Name, ws: Workflows, callers: Callers, seen: set<Name>) returns (events: set<Event>)
    requires name in ws
    ensures events == Effective(ws, callers, name, seen)
    ensures IsCallerMap(ws, callers) && seen == {} ==> forall e :: e in events <==> Raises(ws, e, name)
    decreases |ws.Keys - seen|
  {
    if IsCallerMap(ws, callers) && seen == {} {
      forall e ensures e in Effective(ws, callers, name, {}) <==> Raises(ws, e, name) { EffectiveIsRaised(ws, callers, name, e); }
    }
    events := ws[name].declared;
    if WORKFLOW_CALL !in events || name in seen {
      return events - {WORKFLOW_CALL};
    }
    Shrinks(ws.Keys - seen, ws.Keys - (seen + {name}), name);
    var inherited: set<Event> := {};
    var todo := CallersOf(callers, name);
    while todo != {}
      invariant todo <= CallersOf(callers, name)
      invariant forall e :: e in inherited <==>
        exists c | c in CallersOf(callers, name) && c !in todo :: c in ws && e in Effective(ws, callers, c, seen + {name})
      decreases |todo|
    {
      var caller :| caller in todo;
      todo := todo - {caller};
      if caller in ws {
        var more := EffectiveEvents(caller, ws, callers, seen + {name});
        inherited := inherited + more;
      }
    }
    return (events - {WORKFLOW_CALL}) + inherited;
  }

  /** A family of event sets that holds each workflow's own events and hands each caller's to its callees. */
  predicate Closed(ws: Workflows, family: map<Name, set<Event>>) {
    && family.Keys == ws.Keys
    && (forall n | n in ws :: Own(ws[n]) <= family[n])
    && (forall callee, caller | callee in ws && caller in ws :: Inherits(ws, callee, caller) ==> family[caller] <= family[callee])
  }

  /** Effective events are the least closed family: every closed one contains them. (`RaisesThrough` is their closure.) */
  lemma {:induction false} RaisedIsLeast(ws: Workflows, family: map<Name, set<Event>>, p: seq<Name>, name: Name, event: Event)
    requires Closed(ws, family) && ChainTo(ws, p, name, event)
    ensures name in family && event in family[name]
    decreases |p|
  {
    if |p| > 1 {
      var q := p[1..];
      assert Inherits(ws, p[0], p[1]);
      assert ChainTo(ws, q, p[1], event);
      RaisedIsLeast(ws, family, q, p[1], event);
    }
  }

  // ---------- The verdict ----------

  /** The workflow has a job that is not provably hosted, and an event outside the reserved ones reaches it. */
  ghost predicate Violates(ws: Workflows, name: Name) {
    name in ws && ws[name].unproven != {} && exists e :: Raises(ws, e, name) && e !in MAINTAINER_ONLY_EVENTS
  }

  /** The audit reports exactly the violating workflows. In particular it reports nothing just when every event that
      reaches an unproven job, by any local call chain, is reserved to maintainers. */
  method Analyze(ws: Workflows) returns (violations: seq<Name>)
    ensures forall n :: n in violations <==> Violates(ws, n)
    ensures violations == [] <==>
      forall n, e | n in ws && ws[n].unproven != {} && Raises(ws, e, n) :: e == "push" || e == "workflow_dispatch" || e == "schedule"
  {
    var callers := MakeCallers(ws);
    violations := [];
    var todo := ws.Keys;
    while todo != {}
      invariant todo <= ws.Keys
      invariant forall n :: n in violations <==> n !in todo && Violates(ws, n)
      decreases |todo|
    {
      var name :| name in todo;
      todo := todo - {name};
      if ws[name].unproven != {} {
        var events := EffectiveEvents(name, ws, callers, {});
        var outside := events - MAINTAINER_ONLY_EVENTS;
        if outside != {} {
          assert exists e :: e in outside;
          violations := violations + [name];
        } else {
          assert forall e | e in events :: e in MAINTAINER_ONLY_EVENTS by {
            assert forall e | e in events :: e !in outside;
          }
        }
      }
    }
    assert violations != [] ==> violations[0] in violations;
  }
}
