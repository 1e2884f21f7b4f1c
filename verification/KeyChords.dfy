/** Multi-key bindings: the flat keymap with its pending buffer, against a trie
    (todoers/src/config.rs:348-369). */
module KeyChords {
  import opened Helpers
  import opened Keyboard

  type Keys = seq<KeyEvent>
  type Keymap<V> = map<Keys, V>

  /** Some binding starts with these keys. */
  ghost predicate IsPrefix<V>(keymap: Keymap<V>, keys: Keys) {
    exists b :: b in keymap && keys <= b
  }

  datatype Step<V> = Step(pending: Keys, fired: Option<V>)

  /** What one key does to the buffer, and what it fires. */
  ghost function Resolved<V>(keymap: Keymap<V>, pending: Keys, raw: KeyEvent): Step<V> {
    var key := Normalize(raw);
    if [key] in keymap then Step([], Some(keymap[[key]]))
    else if pending + [key] in keymap then Step([], Some(keymap[pending + [key]]))
    else if IsPrefix(keymap, pending + [key]) then Step(pending + [key], None)
    else Step([], None)
  }

  /** A surface of the user interface with its bindings and its buffer. */
  class Surface<V(==)> {
    const keymap: Keymap<V>
    var pending: Keys

    constructor (keymap: Keymap<V>)
      ensures this.keymap == keymap && pending == []
    {
      this.keymap, pending := keymap, [];
    }

    method Resolve(raw: KeyEvent) returns (fired: Option<V>)
      modifies this
      ensures Step(pending, fired) == Resolved(keymap, old(pending), raw)
    {
      var key := Normalize(raw);
      if [key] in keymap {
        pending := [];
        return Some(keymap[[key]]);
      }
      pending := pending + [key];
      if pending in keymap {
        fired := Some(keymap[pending]);
        pending := [];
        return;
      }
      var stillPrefix := exists b | b in keymap.Keys :: pending <= b;
      assert stillPrefix <==> IsPrefix(keymap, pending);
      if !stillPrefix {
        pending := [];
      }
      fired := None;
    }
  }

  /** A history of keys from an empty buffer: the buffer at the end and what each
      key fired. */
  ghost function Pending<V>(keymap: Keymap<V>, history: Keys): Keys {
    if history == [] then []
    else Resolved(keymap, Pending(keymap, history[..|history| - 1]), history[|history| - 1]).pending
  }

  ghost function Fired<V>(keymap: Keymap<V>, history: Keys): Option<V>
    requires history != []
  {
    Resolved(keymap, Pending(keymap, history[..|history| - 1]), history[|history| - 1]).fired
  }

  // ── what the buffer can hold ──────────────────────────────────────────────

  /** After every history the buffer is empty, or a proper prefix of some binding
      that is not a binding itself and holds no key bound on its own; so it is
      shorter than the longest binding. */
  lemma {:induction false} BufferIsProperPrefix<V>(keymap: Keymap<V>, history: Keys)
    ensures var p := Pending(keymap, history);
            p != [] ==>
              && (exists b :: b in keymap && p < b)
              && p !in keymap
              && (forall k | k in p :: [k] !in keymap)
    decreases |history|
  {
    if history != [] {
      var n := |history| - 1;
      BufferIsProperPrefix(keymap, history[..n]);
      var p := Pending(keymap, history);
      if p != [] {
        var b :| b in keymap && p <= b;
        assert p !in keymap && p != b;
        assert |p| == |b| ==> p == b;
      }
    }
  }

  lemma BufferIsShort<V>(keymap: Keymap<V>, history: Keys, longest: nat)
    requires forall b | b in keymap :: |b| <= longest
    ensures Pending(keymap, history) == [] || |Pending(keymap, history)| < longest
  {
    BufferIsProperPrefix(keymap, history);
  }

  // ── when a binding fires ──────────────────────────────────────────────────

  predicate Free<V>(keymap: Keymap<V>, b: Keys, i: nat)
    requires i < |b|
  {
    [b[i]] !in keymap && b[..i + 1] !in keymap
  }

  /** Nothing cuts in before the last key: no key of it but the last is bound on
      its own, no shorter start of it is bound, and the last key on its own, if
      bound at all, means the same. */
  ghost predicate Unobstructed<V>(keymap: Keymap<V>, b: Keys)
    requires b in keymap && b != []
  {
    && (forall i | 0 <= i < |b| - 1 :: Free(keymap, b, i))
    && ([b[|b| - 1]] in keymap ==> keymap[[b[|b| - 1]]] == keymap[b])
  }

  ghost predicate Normal(keys: Keys) {
    forall k | k in keys :: Normalize(k) == k
  }

  lemma OneKey<V>(keymap: Keymap<V>, b: Keys, i: nat)
    requires b in keymap && i + 1 < |b| && Normal(b) && Free(keymap, b, i)
    ensures Resolved(keymap, b[..i], b[i]) == Step(b[..i + 1], None)
  {
    assert b[..i] + [b[i]] == b[..i + 1] && b[i] in b && b[..i + 1] <= b;
  }

  lemma {:induction false} BufferFills<V>(keymap: Keymap<V>, b: Keys, n: nat)
    requires b in keymap && n < |b| && Normal(b)
    requires forall i | 0 <= i < n :: Free(keymap, b, i)
    ensures Pending(keymap, b[..n]) == b[..n]
    ensures forall i | 0 < i <= n :: Fired(keymap, b[..i]) == None
    decreases n
  {
    if n > 0 {
      BufferFills(keymap, b, n - 1);
      assert b[..n][..n - 1] == b[..n - 1];
      OneKey(keymap, b, n - 1);
    }
  }

  /** From an empty buffer, a binding's keys fire it at the last key and nothing
      before, exactly when nothing obstructs it. */
  lemma FiresAtItsLastKeyIff<V>(keymap: Keymap<V>, b: Keys)
    requires b in keymap && b != [] && Normal(b)
    ensures (forall i | 0 < i < |b| :: Fired(keymap, b[..i]) == None) && Fired(keymap, b) == Some(keymap[b])
       <==> Unobstructed(keymap, b)
  {
    var n := |b| - 1;
    assert b[n] in b && b[..n] + [b[n]] == b;
    if forall i | 0 <= i < n :: Free(keymap, b, i) {
      BufferFills(keymap, b, n);
    } else {
      FirstObstacle(keymap, b);
    }
  }

  lemma FirstObstacle<V>(keymap: Keymap<V>, b: Keys)
    requires b in keymap && b != [] && Normal(b)
    requires exists i | 0 <= i < |b| - 1 :: !Free(keymap, b, i)
    ensures exists i :: 0 < i < |b| && Fired(keymap, b[..i]) != None
  {
    var i := 0;
    while Free(keymap, b, i)
      invariant 0 <= i < |b| - 1
      invariant forall j | 0 <= j < i :: Free(keymap, b, j)
      decreases |b| - i
    {
      i := i + 1;
    }
    BufferFills(keymap, b, i);
    assert b[..i + 1][..i] == b[..i] && b[..i] + [b[i]] == b[..i + 1] && b[i] in b;
    assert Fired(keymap, b[..i + 1]) != None;
  }

  // ── the same as a walk in a trie ──────────────────────────────────────────

  datatype Trie<V> = Node(value: Option<V>, children: map<KeyEvent, Trie<V>>)

  /** The node a sequence of keys leads to. */
  function Descend<V>(trie: Trie<V>, keys: Keys): Option<Trie<V>>
    decreases |keys|
  {
    if keys == [] then Some(trie)
    else if keys[0] in trie.children then Descend(trie.children[keys[0]], keys[1..])
    else None
  }

  function Insert<V>(trie: Trie<V>, keys: Keys, v: V): Trie<V>
    decreases |keys|
  {
    if keys == [] then trie.(value := Some(v))
    else
      var child := if keys[0] in trie.children then trie.children[keys[0]] else Node(None, map[]);
      trie.(children := trie.children[keys[0] := Insert(child, keys[1..], v)])
  }

  /** The trie of a keymap, its bindings put in one after another. */
  function Build<V>(bindings: seq<(Keys, V)>): Trie<V> {
    if bindings == [] then Node(None, map[])
    else Insert(Build(bindings[..|bindings| - 1]), bindings[|bindings| - 1].0, bindings[|bindings| - 1].1)
  }

  /** The keymap those insertions leave: a later binding replaces an equal one. */
  function Flat<V>(bindings: seq<(Keys, V)>): Keymap<V> {
    if bindings == [] then map[]
    else Flat(bindings[..|bindings| - 1])[bindings[|bindings| - 1].0 := bindings[|bindings| - 1].1]
  }

  lemma {:induction false} InsertedAt<V>(trie: Trie<V>, keys: Keys, v: V, path: Keys)
    ensures var before, after := Descend(trie, path), Descend(Insert(trie, keys, v), path);
            && (after.Some? <==> before.Some? || path <= keys)
            && (after.Some? ==>
                  after.value.value == if path == keys then Some(v)
                      else if before.Some? then before.value.value else None)
    decreases |path|
  {
    if path != [] {
      if keys != [] && path[0] == keys[0] {
        var child := if keys[0] in trie.children then trie.children[keys[0]] else Node(None, map[]);
        InsertedAt(child, keys[1..], v, path[1..]);
        assert path == [path[0]] + path[1..] && keys == [keys[0]] + keys[1..];
        assert path <= keys <==> path[1..] <= keys[1..];
        if keys[0] !in trie.children {
          assert Descend(child, path[1..]).Some? ==> path[1..] == [];
        }
      }
    }
  }

  /** The trie knows the same bindings and the same prefixes as the flat map. */
  lemma {:induction false} TrieKnows<V>(bindings: seq<(Keys, V)>, path: Keys)
    ensures var node := Descend(Build(bindings), path);
            && (node.Some? <==> path == [] || IsPrefix(Flat(bindings), path))
            && (node.Some? ==> node.value.value == if path in Flat(bindings) then Some(Flat(bindings)[path]) else None)
    decreases |bindings|
  {
    if bindings != [] {
      var n := |bindings| - 1;
      TrieKnows(bindings[..n], path);
      InsertedAt(Build(bindings[..n]), bindings[n].0, bindings[n].1, path);
      var before, after := Flat(bindings[..n]), Flat(bindings);
      if IsPrefix(before, path) {
        var b :| b in before && path <= b;
        assert b in after;
      }
      if path <= bindings[n].0 {
        assert bindings[n].0 in after;
      }
    }
  }

  /** One key in the trie: a child of the root that is bound fires first; otherwise
      one step down from where the walk stands, back to the root when it fires or
      when there is no way down. */
  function Walk<V>(root: Trie<V>, here: Trie<V>, raw: KeyEvent): (Trie<V>, Option<V>) {
    var key := Normalize(raw);
    if key in root.children && root.children[key].value.Some? then (root, root.children[key].value)
    else if key !in here.children then (root, None)
    else if here.children[key].value.Some? then (root, here.children[key].value)
    else (here.children[key], None)
  }

  lemma {:induction false} DescendOneMore<V>(trie: Trie<V>, path: Keys, key: KeyEvent)
    ensures Descend(trie, path + [key]) ==
      match Descend(trie, path)
      case None => None
      case Some(node) => if key in node.children then Some(node.children[key]) else None
    decreases |path|
  {
    if path == [] {
      assert path + [key] == [key] && [key][1..] == [];
    } else {
      assert (path + [key])[1..] == path[1..] + [key];
      if path[0] in trie.children {
        DescendOneMore(trie.children[path[0]], path[1..], key);
      }
    }
  }

  function Walked<V>(root: Trie<V>, history: Keys): Trie<V> {
    if history == [] then root
    else Walk(root, Walked(root, history[..|history| - 1]), history[|history| - 1]).0
  }

  /** For every history, the trie walk stands at the node of the buffer and every
      key fires the same. */
  lemma {:induction false} ResolveIsTrieWalk<V>(bindings: seq<(Keys, V)>, history: Keys)
    requires forall i | 0 <= i < |bindings| :: bindings[i].0 != []
    ensures var root := Build(bindings);
            && Descend(root, Pending(Flat(bindings), history)) == Some(Walked(root, history))
            && (history != [] ==>
                  Fired(Flat(bindings), history)
                  == Walk(root, Walked(root, history[..|history| - 1]), history[|history| - 1]).1)
    decreases |history|
  {
    if history != [] {
      var n := |history| - 1;
      ResolveIsTrieWalk(bindings, history[..n]);
      WalkStep(bindings, Pending(Flat(bindings), history[..n]), history[n]);
    }
  }

  lemma WalkStep<V>(bindings: seq<(Keys, V)>, pending: Keys, raw: KeyEvent)
    requires Descend(Build(bindings), pending).Some?
    ensures var root := Build(bindings);
            && var step := Resolved(Flat(bindings), pending, raw);
            && var walk := Walk(root, Descend(root, pending).value, raw);
            && Descend(root, step.pending) == Some(walk.0) && step.fired == walk.1
  {
    var root, key := Build(bindings), Normalize(raw);
    DescendOneMore(root, [], key);
    assert [] + [key] == [key];
    TrieKnows(bindings, [key]);
    DescendOneMore(root, pending, key);
    TrieKnows(bindings, pending + [key]);
  }
}
