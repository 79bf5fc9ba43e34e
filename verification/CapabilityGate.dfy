/**
 The capability-gate audit's two searches: which bits a case's text demands through the helpers it names, and which bits
 a traits base declares through the bases it inherits. Both walk a graph that may be cyclic, by depth-first search with
 one set of visited names shared by all calls.
 */
module CapabilityGate {
  import opened FiniteSets

  type Name = string
  type Bit = string

  /** A text, reduced to the bits it demands (or declares) by itself and the names that occur in it. */
  datatype Text = Text(bits: set<Bit>, names: seq<Name>)

  /** The helpers by name, or the bases. */
  type Table = map<Name, Text>

  // ---------- Reachability ----------

  /** A chain of names of the table, each occurring in the text before it. */
  predicate Chain(table: Table, first: Text, p: seq<Name>) {
    && p != []
    && (forall i | 0 <= i < |p| :: p[i] in table)
    && p[0] in first.names
    && (forall i | 0 < i < |p| :: p[i] in table[p[i - 1]].names)
  }

  ghost predicate Reaches(table: Table, first: Text, name: Name) {
    exists p :: Chain(table, first, p) && p[|p| - 1] == name
  }

  /** Every bit of the text itself, and of every helper reachable from it by name. */
  ghost predicate Demanded(table: Table, text: Text, bit: Bit) {
    bit in text.bits || exists n | n in table :: Reaches(table, text, n) && bit in table[n].bits
  }

  // ---------- The search ----------

  /** The names a call has added to the visited set are names of the table reachable from the text. */
  ghost predicate Found(table: Table, text: Text, seen: set<Name>, seen': set<Name>) {
    seen <= seen' && forall n | n in seen' && n !in seen :: n in table && Reaches(table, text, n)
  }

  /** Nothing that the text or an added name mentions is left out. */
  predicate Complete(table: Table, text: Text, seen: set<Name>, seen': set<Name>) {
    && (forall n | n in text.names && n in table :: n in seen')
    && (forall m | m in seen' && m !in seen && m in table :: forall n | n in table[m].names && n in table :: n in seen')
  }

  predicate BitOfAdded(table: Table, seen: set<Name>, seen': set<Name>, b: Bit) {
    exists n | n in seen' && n !in seen :: n in table && b in table[n].bits
  }

  /** The bits collected are those of the text and of the added names. */
  ghost predicate Collected(table: Table, text: Text, seen: set<Name>, seen': set<Name>, bits: set<Bit>) {
    forall b :: b in bits <==> b in text.bits || BitOfAdded(table, seen, seen', b)
  }

  lemma ReachesStep(table: Table, text: Text, m: Name, n: Name)
    requires m in table && m in text.names && Reaches(table, table[m], n)
    ensures Reaches(table, text, n)
  {
    var p :| Chain(table, table[m], p) && p[|p| - 1] == n;
    assert Chain(table, text, [m] + p);
  }

  lemma ReachesMore(table: Table, text: Text, more: Text, n: Name)
    requires Reaches(table, text, n) && forall m | m in text.names :: m in more.names
    ensures Reaches(table, more, n)
  {
    var p :| Chain(table, text, p) && p[|p| - 1] == n;
    assert Chain(table, more, p);
  }

  /** Following one more name: what was found before and what its own search finds is what the longer text reaches. */
  lemma FollowFound(table: Table, text: Text, name: Name, seen: set<Name>, mid: set<Name>, seen': set<Name>)
    requires name in table && Found(table, text, seen, mid) && Found(table, table[name], mid + {name}, seen')
    ensures Found(table, Text(text.bits, text.names + [name]), seen, seen')
  {
    var more := Text(text.bits, text.names + [name]);
    forall n | n in seen' && n !in seen ensures n in table && Reaches(table, more, n) {
      if n in mid {
        ReachesMore(table, text, more, n);
      } else if n == name {
        assert Chain(table, more, [name]);
      } else {
        ReachesStep(table, more, name, n);
      }
    }
  }

  lemma FollowComplete(table: Table, text: Text, name: Name, seen: set<Name>, mid: set<Name>, seen': set<Name>)
    requires name in table && seen <= mid && mid + {name} <= seen'
    requires Complete(table, text, seen, mid) && Complete(table, table[name], mid + {name}, seen')
    ensures Complete(table, Text(text.bits, text.names + [name]), seen, seen')
  {}

  lemma FollowCollected(table: Table, text: Text, name: Name, seen: set<Name>, mid: set<Name>, seen': set<Name>, bits: set<Bit>, more: set<Bit>)
    requires name in table && name !in mid && seen <= mid && mid + {name} <= seen'
    requires Collected(table, text, seen, mid, bits) && Collected(table, table[name], mid + {name}, seen', more)
    ensures Collected(table, Text(text.bits, text.names + [name]), seen, seen', bits + more)
  {
    forall b ensures b in bits + more <==> b in text.bits || BitOfAdded(table, seen, seen', b) {
      if BitOfAdded(table, seen, seen', b) {
        var n :| n in seen' && n !in seen && n in table && b in table[n].bits;
        assert n in mid || n == name || (n in seen' && n !in mid + {name});
      }
    }
  }

  /** A name that is no helper, or visited already, adds nothing. */
  lemma SkipName(table: Table, text: Text, name: Name, seen: set<Name>, mid: set<Name>, bits: set<Bit>)
    requires name !in table || name in mid
    requires Found(table, text, seen, mid) && Complete(table, text, seen, mid) && Collected(table, text, seen, mid, bits)
    ensures var more := Text(text.bits, text.names + [name]);
      Found(table, more, seen, mid) && Complete(table, more, seen, mid) && Collected(table, more, seen, mid, bits)
  {
    var more := Text(text.bits, text.names + [name]);
    forall n | n in mid && n !in seen ensures n in table && Reaches(table, more, n) {
      ReachesMore(table, text, more, n);
    }
  }

  /** The search of one text. `seen` is shared by all calls: it comes in with what earlier ones visited and goes out with
      what this one added. */
  method DemandsOf(text: Text, bodies: Table, seen: set<Name>) returns (bits: set<Bit>, seen': set<Name>)
    ensures Found(bodies, text, seen, seen') && Complete(bodies, text, seen, seen') && Collected(bodies, text, seen, seen', bits)
    decreases |bodies.Keys - seen|
  {
    bits, seen' := text.bits, seen;
    var i := 0;
    while i < |text.names|
      invariant 0 <= i <= |text.names|
      invariant var part := Text(text.bits, text.names[..i]);
        Found(bodies, part, seen, seen') && Complete(bodies, part, seen, seen') && Collected(bodies, part, seen, seen', bits)
    {
      var name := text.names[i];
      ghost var part := Text(text.bits, text.names[..i]);
      assert text.names[..i + 1] == part.names + [name];
      if name in bodies && name !in seen' {
        Shrinks(bodies.Keys - seen, bodies.Keys - (seen' + {name}), name);
        var more, after := DemandsOf(bodies[name], bodies, seen' + {name});
        FollowFound(bodies, part, name, seen, seen', after);
        FollowComplete(bodies, part, name, seen, seen', after);
        FollowCollected(bodies, part, name, seen, seen', after, bits, more);
        bits, seen' := bits + more, after;
      } else {
        SkipName(bodies, part, name, seen, seen', bits);
      }
      i := i + 1;
    }
    assert text.names[..i] == text.names;
  }

  // ---------- What the searches compute ----------

  /** A set that holds what the text mentions and what its own members mention holds everything reachable. */
  lemma {:induction false} ReachableIsSeen(table: Table, text: Text, closed: set<Name>, p: seq<Name>)
    requires Complete(table, text, {}, closed) && Chain(table, text, p)
    ensures p[|p| - 1] in closed
  {
    if |p| > 1 {
      var q := p[..|p| - 1];
      assert Chain(table, text, q);
      ReachableIsSeen(table, text, closed, q);
    }
  }

  /** From an empty visited set the search demands exactly the bits of the text and of every helper reachable by name,
      cycles or not. */
  method Demands(text: Text, bodies: Table) returns (bits: set<Bit>)
    ensures forall b :: b in bits <==> Demanded(bodies, text, b)
  {
    var seen;
    bits, seen := DemandsOf(text, bodies, {});
    forall b ensures b in bits <==> Demanded(bodies, text, b) {
      forall n | n in bodies && Reaches(bodies, text, n) ensures n in seen {
        var p :| Chain(bodies, text, p) && p[|p| - 1] == n;
        ReachableIsSeen(bodies, text, seen, p);
      }
      if BitOfAdded(bodies, {}, seen, b) {
        var n :| n in seen && n in bodies && b in bodies[n].bits;
        assert Reaches(bodies, text, n);
      }
    }
  }

  /** The same search written over names: a base's own bits and those of every base it inherits. */
  method ResolveDeclared(name: Name, table: Table, seen: set<Name>) returns (bits: set<Bit>, seen': set<Name>)
    ensures var text := Text({}, [name]);
      Found(table, text, seen, seen') && Complete(table, text, seen, seen') && Collected(table, text, seen, seen', bits)
    decreases |table.Keys - seen|
  {
    if name in seen || name !in table {
      return {}, seen;
    }
    ghost var text := Text({}, [name]);
    ghost var none := Text({}, []);
    seen' := seen + {name};
    bits := table[name].bits;
    Shrinks(table.Keys - seen, table.Keys - seen', name);
    var bases := table[name].names;
    var i := 0;
    while i < |bases|
      invariant 0 <= i <= |bases|
      invariant var part := Text(table[name].bits, bases[..i]);
        && Found(table, part, seen + {name}, seen') && Complete(table, part, seen + {name}, seen')
        && Collected(table, part, seen + {name}, seen', bits)
    {
      ghost var part := Text(table[name].bits, bases[..i]);
      assert bases[..i + 1] == part.names + [bases[i]];
      ghost var left := table.Keys - seen';
      assert left <= table.Keys - (seen + {name});
      SizeLeq(left, table.Keys - (seen + {name}));
      var more, after := ResolveDeclared(bases[i], table, seen');
      JoinFound(table, part, bases[i], seen + {name}, seen', after);
      JoinComplete(table, part, bases[i], seen + {name}, seen', after);
      JoinCollected(table, part, bases[i], seen + {name}, seen', after, bits, more);
      bits, seen' := bits + more, after;
      i := i + 1;
    }
    assert bases[..i] == bases && Text(table[name].bits, bases) == table[name];
    FollowFound(table, none, name, seen, seen, seen');
    FollowComplete(table, none, name, seen, seen, seen');
    FollowCollected(table, none, name, seen, seen, seen', {}, bits);
    assert none.names + [name] == [name];
  }

  // Two searches one after the other, the second of a single name.

  lemma JoinFound(table: Table, text: Text, name: Name, seen: set<Name>, mid: set<Name>, seen': set<Name>)
    requires Found(table, text, seen, mid) && Found(table, Text({}, [name]), mid, seen')
    ensures Found(table, Text(text.bits, text.names + [name]), seen, seen')
  {
    var more := Text(text.bits, text.names + [name]);
    forall n | n in seen' && n !in seen ensures n in table && Reaches(table, more, n) {
      if n in mid {
        ReachesMore(table, text, more, n);
      } else {
        ReachesMore(table, Text({}, [name]), more, n);
      }
    }
  }

  lemma JoinComplete(table: Table, text: Text, name: Name, seen: set<Name>, mid: set<Name>, seen': set<Name>)
    requires seen <= mid <= seen'
    requires Complete(table, text, seen, mid) && Complete(table, Text({}, [name]), mid, seen')
    ensures Complete(table, Text(text.bits, text.names + [name]), seen, seen')
  {
    assert name in [name];
  }

  lemma JoinCollected(table: Table, text: Text, name: Name, seen: set<Name>, mid: set<Name>, seen': set<Name>, bits: set<Bit>, more: set<Bit>)
    requires seen <= mid <= seen'
    requires Collected(table, text, seen, mid, bits) && Collected(table, Text({}, [name]), mid, seen', more)
    ensures Collected(table, Text(text.bits, text.names + [name]), seen, seen', bits + more)
  {
    forall b ensures b in bits + more <==> b in text.bits || BitOfAdded(table, seen, seen', b) {
      if BitOfAdded(table, seen, seen', b) {
        var n :| n in seen' && n !in seen && n in table && b in table[n].bits;
        assert n in mid || (n in seen' && n !in mid);
      }
    }
  }

  /** From an empty visited set a base declares exactly the bits of every base reachable from it, itself included. */
  method Declared(name: Name, table: Table) returns (bits: set<Bit>)
    ensures forall b :: b in bits <==> Demanded(table, Text({}, [name]), b)
  {
    var text := Text({}, [name]);
    var seen;
    bits, seen := ResolveDeclared(name, table, {});
    forall b ensures b in bits <==> Demanded(table, text, b) {
      forall n | n in table && Reaches(table, text, n) ensures n in seen {
        var p :| Chain(table, text, p) && p[|p| - 1] == n;
        ReachableIsSeen(table, text, seen, p);
      }
      if BitOfAdded(table, {}, seen, b) {
        var n :| n in seen && n in table && b in table[n].bits;
        assert Reaches(table, text, n);
      }
    }
  }
}
