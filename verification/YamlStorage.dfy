/** A keyed store: what the commands of the storage layer do to it. */
module KeyedStore {
  datatype Option<T> = None | Some(value: T)

  /** What a key can hold. Lists and streams are other kinds that these commands leave alone. */
  datatype Value = Text(text: string) | Hash(fields: map<string, string>) | Members(members: set<string>) | Other(id: nat)

  type Store = map<string, Value>

  datatype Op = Put(key: string, text: string) | PutField(key: string, field: string, text: string)
              | AddMember(key: string, text: string) | Delete(key: string)

  function Get(s: Store, key: string): Option<Value> {
    if key in s then Some(s[key]) else None
  }

  function SetField(v: Option<Value>, field: string, text: string): Option<Value> {
    match v
    case None => Some(Hash(map[field := text]))
    case Some(Hash(fields)) => Some(Hash(fields[field := text]))
    case _ => v
  }

  function Include(v: Option<Value>, text: string): Option<Value> {
    match v
    case None => Some(Members({text}))
    case Some(Members(members)) => Some(Members(members + {text}))
    case _ => v
  }

  /** What an operation makes of the value under its key: a plain put overwrites any kind,
      a field or a member is refused by a value of another kind, a delete removes the whole value. */
  function Change(v: Option<Value>, op: Op): Option<Value> {
    match op
    case Put(_, text) => Some(Text(text))
    case PutField(_, field, text) => SetField(v, field, text)
    case AddMember(_, text) => Include(v, text)
    case Delete(_) => None
  }

  function Set(s: Store, key: string, v: Option<Value>): Store {
    if v.Some? then s[key := v.value] else s - {key}
  }

  function Perform(s: Store, op: Op): Store { Set(s, op.key, Change(Get(s, op.key), op)) }

  function PerformAll(s: Store, ops: seq<Op>): Store
    decreases |ops|
  {
    if ops == [] then s else Perform(PerformAll(s, ops[..|ops| - 1]), ops[|ops| - 1])
  }

  /** What a run of operations makes of the value under one key. */
  function Effect(ops: seq<Op>, key: string, v: Option<Value>): Option<Value>
    decreases |ops|
  {
    if ops == [] then v
    else
      var last, before := ops[|ops| - 1], Effect(ops[..|ops| - 1], key, v);
      if last.key == key then Change(before, last) else before
  }

  /** Keys do not interfere: a run acts on each key by the operations on that key alone. */
  lemma {:induction false} EachKeyAlone(s: Store, ops: seq<Op>, key: string)
    ensures Get(PerformAll(s, ops), key) == Effect(ops, key, Get(s, key))
    decreases |ops|
  {
    hide Change;
    if ops != [] {
      EachKeyAlone(s, ops[..|ops| - 1], key);
    }
  }

  lemma {:induction false} PerformAppend(s: Store, x: seq<Op>, y: seq<Op>)
    ensures PerformAll(s, x + y) == PerformAll(PerformAll(s, x), y)
    decreases |y|
  {
    hide Perform;
    if y == [] {
      assert x + y == x;
    } else {
      assert (x + y)[..|x + y| - 1] == x + y[..|y| - 1];
      PerformAppend(s, x, y[..|y| - 1]);
    }
  }

  lemma {:induction false} EffectAppend(x: seq<Op>, y: seq<Op>, key: string, v: Option<Value>)
    ensures Effect(x + y, key, v) == Effect(y, key, Effect(x, key, v))
    decreases |y|
  {
    hide Change;
    if y == [] {
      assert x + y == x;
    } else {
      assert (x + y)[..|x + y| - 1] == x + y[..|y| - 1];
      EffectAppend(x, y[..|y| - 1], key, v);
    }
  }

  lemma EffectOne(op: Op, key: string, v: Option<Value>)
    ensures Effect([op], key, v) == if op.key == key then Change(v, op) else v
  {
    assert [op][..0] == [];
  }

  lemma SameValues(s: Store, t: Store)
    requires forall key :: Get(s, key) == Get(t, key)
    ensures s == t
  {
    forall key | key in s ensures key in t && s[key] == t[key] { assert Get(s, key) == Get(t, key); }
    forall key | key in t ensures key in s { assert Get(s, key) == Get(t, key); }
  }

  // ---------------------------------------------------------------------------
  // Running twice
  // ---------------------------------------------------------------------------

  /** Whether a run forgets what was under the key, and otherwise which fields and members it adds. */
  predicate Forgets(ops: seq<Op>, key: string)
    decreases |ops|
  {
    ops != [] && (Forgets(ops[..|ops| - 1], key)
                  || (ops[|ops| - 1].key == key && (ops[|ops| - 1].Put? || ops[|ops| - 1].Delete?)))
  }

  lemma {:induction false} Forgotten(ops: seq<Op>, key: string, v: Option<Value>, w: Option<Value>)
    requires Forgets(ops, key)
    ensures Effect(ops, key, v) == Effect(ops, key, w)
    decreases |ops|
  {
    if Forgets(ops[..|ops| - 1], key) {
      Forgotten(ops[..|ops| - 1], key, v, w);
    }
  }

  function Fields(ops: seq<Op>, key: string): map<string, string>
    decreases |ops|
  {
    if ops == [] then map[]
    else
      var last, before := ops[|ops| - 1], Fields(ops[..|ops| - 1], key);
      if last.PutField? && last.key == key then before[last.field := last.text] else before
  }

  function Added(ops: seq<Op>, key: string): set<string>
    decreases |ops|
  {
    if ops == [] then {}
    else
      var last, before := ops[|ops| - 1], Added(ops[..|ops| - 1], key);
      if last.AddMember? && last.key == key then before + {last.text} else before
  }

  lemma {:induction false} OnHash(ops: seq<Op>, key: string, m: map<string, string>)
    requires !Forgets(ops, key)
    ensures Effect(ops, key, Some(Hash(m))) == Some(Hash(m + Fields(ops, key)))
    decreases |ops|
  {
    if ops == [] {
      assert m + map[] == m;
    } else {
      OnHash(ops[..|ops| - 1], key, m);
      var last, before := ops[|ops| - 1], Fields(ops[..|ops| - 1], key);
      if last.PutField? && last.key == key {
        assert (m + before)[last.field := last.text] == m + before[last.field := last.text];
      }
    }
  }

  lemma {:induction false} OnMembers(ops: seq<Op>, key: string, m: set<string>)
    requires !Forgets(ops, key)
    ensures Effect(ops, key, Some(Members(m))) == Some(Members(m + Added(ops, key)))
    decreases |ops|
  {
    if ops == [] {
      assert m + {} == m;
    } else {
      OnMembers(ops[..|ops| - 1], key, m);
      var last, before := ops[|ops| - 1], Added(ops[..|ops| - 1], key);
      if last.AddMember? && last.key == key {
        assert (m + before) + {last.text} == m + (before + {last.text});
      }
    }
  }

  lemma {:induction false} OnAnother(ops: seq<Op>, key: string, v: Value)
    requires !Forgets(ops, key) && (v.Text? || v.Other?)
    ensures Effect(ops, key, Some(v)) == Some(v)
    decreases |ops|
  {
    if ops != [] {
      OnAnother(ops[..|ops| - 1], key, v);
    }
  }

  lemma {:induction false} OnNothing(ops: seq<Op>, key: string)
    requires !Forgets(ops, key)
    ensures match Effect(ops, key, None)
            case None => Fields(ops, key) == map[] && Added(ops, key) == {}
            case Some(Hash(fields)) => fields + Fields(ops, key) == fields
            case Some(Members(members)) => members + Added(ops, key) == members
            case Some(_) => false
    decreases |ops|
  {
    if ops != [] {
      OnNothing(ops[..|ops| - 1], key);
      var last, before := ops[|ops| - 1], Effect(ops[..|ops| - 1], key, None);
      if last.AddMember? && last.key == key {
        var m, a := if before.Some? && before.value.Members? then before.value.members else {}, Added(ops[..|ops| - 1], key);
        assert (m + {last.text}) + (a + {last.text}) == (m + a) + {last.text};
      }
    }
  }

  /** Any run of puts, field puts, member additions and deletes does to a key in two goes what it does in one. */
  lemma TwiceOnKey(ops: seq<Op>, key: string, v: Option<Value>)
    ensures Effect(ops, key, Effect(ops, key, v)) == Effect(ops, key, v)
  {
    hide Effect, Fields, Added, Forgets;
    if Forgets(ops, key) {
      Forgotten(ops, key, Effect(ops, key, v), v);
    } else {
      match v {
        case None =>
          OnNothing(ops, key);
          var r := Effect(ops, key, None);
          if r.Some? {
            if r.value.Hash? { OnHash(ops, key, r.value.fields); } else { OnMembers(ops, key, r.value.members); }
          }
        case Some(Hash(m)) =>
          var u := Fields(ops, key);
          OnHash(ops, key, m);
          OnHash(ops, key, m + u);
          assert (m + u) + u == m + u;
        case Some(Members(m)) =>
          var u := Added(ops, key);
          OnMembers(ops, key, m);
          OnMembers(ops, key, m + u);
          assert (m + u) + u == m + u;
        case Some(other) =>
          OnAnother(ops, key, other);
      }
    }
  }

  /** The same for whole stores. */
  lemma Twice(s: Store, ops: seq<Op>)
    ensures PerformAll(PerformAll(s, ops), ops) == PerformAll(s, ops)
  {
    hide PerformAll, Effect, Get;
    var once := PerformAll(s, ops);
    forall key ensures Get(PerformAll(once, ops), key) == Get(once, key) {
      EachKeyAlone(s, ops, key);
      EachKeyAlone(once, ops, key);
      TwiceOnKey(ops, key, Get(s, key));
    }
    SameValues(PerformAll(once, ops), once);
  }
}

/** Loading a YAML tree into the store. */
module YamlStorage {
  import opened KeyedStore

  datatype Node = Null | Undefined | Scalar(text: string) | Sequence(items: seq<Node>) | Map(entries: seq<Entry>)

  datatype Entry = Entry(key: string, value: Node)

  /** Every underscore becomes a colon. */
  function Colons(key: string): (r: string)
    ensures |r| == |key|
  {
    seq(|key|, i requires 0 <= i < |key| => if key[i] == '_' then ':' else key[i])
  }

  function NewPath(path: string, key: string): (r: string)
    ensures |r| > |path|
  {
    path + ":" + Colons(key)
  }

  /** The operations of a load, in order. */
  function Ops(path: string, node: Node, idempotence: bool): seq<Op>
    decreases node, 1, 0
  {
    match node
    case Scalar(text) => [Put(path, text)]
    case Sequence(items) => ItemOps(path, node, |items|)
    case Map(entries) => EntryOps(path, node, idempotence, |entries|)
    case _ => []
  }

  function ItemOps(path: string, node: Node, n: nat): seq<Op>
    requires node.Sequence? && n <= |node.items|
    decreases node, 0, n
  {
    if n == 0 then []
    else
      var item := node.items[n - 1];
      ItemOps(path, node, n - 1) + if item.Scalar? then [AddMember(path, item.text)] else Ops(path, item, true)
  }

  function EntryOps(path: string, node: Node, idempotence: bool, n: nat): seq<Op>
    requires node.Map? && n <= |node.entries|
    decreases node, 0, n
  {
    if n == 0 then []
    else
      var entry := node.entries[n - 1];
      EntryOps(path, node, idempotence, n - 1) +
      if entry.value.Scalar? then [PutField(path, entry.key, entry.value.text)]
      else (if idempotence then [Delete(NewPath(path, entry.key))] else []) + Ops(NewPath(path, entry.key), entry.value, true)
  }

  /** A store whose contents the storage commands replace. */
  class Storage {
    var contents: Store

    method ValueStore(key: string, value: string)
      modifies this
      ensures contents == Perform(old(contents), Put(key, value))
    {
      contents := contents[key := Text(value)];
    }

    method MapStore(name: string, key: string, value: string)
      modifies this
      ensures contents == Perform(old(contents), PutField(name, key, value))
    {
      if name !in contents {
        contents := contents[name := Hash(map[key := value])];
      } else if contents[name].Hash? {
        contents := contents[name := Hash(contents[name].fields[key := value])];
      } else {
        assert contents[name := contents[name]] == contents;
      }
    }

    method SetStore(name: string, value: string)
      modifies this
      ensures contents == Perform(old(contents), AddMember(name, value))
    {
      if name !in contents {
        contents := contents[name := Members({value})];
      } else if contents[name].Members? {
        contents := contents[name := Members(contents[name].members + {value})];
      } else {
        assert contents[name := contents[name]] == contents;
      }
    }

    method DelKey(key: string)
      modifies this
      ensures contents == Perform(old(contents), Delete(key))
    {
      contents := contents - {key};
    }
  }

  lemma PerformOne(s: Store, ops: seq<Op>, op: Op)
    ensures PerformAll(s, ops + [op]) == Perform(PerformAll(s, ops), op)
    ensures PerformAll(s, []) == s
  {
    assert (ops + [op])[..|ops + [op]| - 1] == ops;
  }

  /** Writes a tree under `path`. */
  method YamlToStorage(storage: Storage, path: string, node: Node, idempotence: bool := true)
    modifies storage
    ensures storage.contents == PerformAll(old(storage.contents), Ops(path, node, idempotence))
    decreases node
  {
    hide PerformAll, Perform;
    ghost var before := storage.contents;
    PerformOne(before, [], Delete(path));
    match node {
      case Null =>
      case Scalar(text) =>
        storage.ValueStore(path, text);
        PerformOne(before, [], Put(path, text));
        assert [] + [Put(path, text)] == [Put(path, text)];
      case Sequence(items) =>
        for i := 0 to |items|
          invariant storage.contents == PerformAll(before, ItemOps(path, node, i))
        {
          ghost var so := ItemOps(path, node, i);
          if items[i].Scalar? {
            storage.SetStore(path, items[i].text);
            PerformOne(before, so, AddMember(path, items[i].text));
          } else {
            YamlToStorage(storage, path, items[i]);
            PerformAppend(before, so, Ops(path, items[i], true));
          }
        }
      case Map(entries) =>
        var virgin := true;
        for i := 0 to |entries|
          invariant virgin && storage.contents == PerformAll(before, EntryOps(path, node, idempotence, i))
        {
          ghost var so := EntryOps(path, node, idempotence, i);
          var entry := entries[i];
          if entry.value.Scalar? {
            storage.MapStore(path, entry.key, entry.value.text);
            PerformOne(before, so, PutField(path, entry.key, entry.value.text));
          } else {
            var newPath := NewPath(path, entry.key);
            if idempotence && virgin {
              storage.DelKey(newPath);
              PerformOne(before, so, Delete(newPath));
              so := so + [Delete(newPath)];
            }
            YamlToStorage(storage, newPath, entry.value);
            PerformAppend(before, so, Ops(newPath, entry.value, true));
            assert so + Ops(newPath, entry.value, true) == EntryOps(path, node, idempotence, i + 1);
          }
        }
      case Undefined =>
    }
  }

  // ---------------------------------------------------------------------------
  // What a load leaves behind
  // ---------------------------------------------------------------------------

  /** Loading a tree twice leaves the store as loading it once, whatever was there before. */
  lemma LoadTwice(s: Store, path: string, node: Node, idempotence: bool)
    ensures var ops := Ops(path, node, idempotence); PerformAll(PerformAll(s, ops), ops) == PerformAll(s, ops)
  {
    Twice(s, Ops(path, node, idempotence));
  }

  function WrittenEntries(v: Option<Value>, node: Node, n: nat): Option<Value>
    requires node.Map? && n <= |node.entries|
    decreases node, 0, n
  {
    if n == 0 then v
    else
      var entry, before := node.entries[n - 1], WrittenEntries(v, node, n - 1);
      if entry.value.Scalar? then SetField(before, entry.key, entry.value.text) else before
  }

  /** What a node writes under its own path. */
  function Written(v: Option<Value>, node: Node): Option<Value>
    decreases node, 1, 0
  {
    match node
    case Scalar(text) => Some(Text(text))
    case Sequence(items) => WrittenItems(v, node, |items|)
    case Map(entries) => WrittenEntries(v, node, |entries|)
    case _ => v
  }

  function WrittenItems(v: Option<Value>, node: Node, n: nat): Option<Value>
    requires node.Sequence? && n <= |node.items|
    decreases node, 0, n
  {
    if n == 0 then v
    else
      var item, before := node.items[n - 1], WrittenItems(v, node, n - 1);
      if item.Scalar? then Include(before, item.text) else Written(before, item)
  }

  /** A map value that is not a scalar, with the path it is stored under. */
  datatype Container = Container(path: string, node: Node, cleared: bool)

  /** The containers below a node, in document order. */
  function Containers(path: string, node: Node, idempotence: bool): seq<Container>
    decreases node, 1, 0
  {
    match node
    case Sequence(items) => ItemContainers(path, node, |items|)
    case Map(entries) => EntryContainers(path, node, idempotence, |entries|)
    case _ => []
  }

  function ItemContainers(path: string, node: Node, n: nat): seq<Container>
    requires node.Sequence? && n <= |node.items|
    decreases node, 0, n
  {
    if n == 0 then [] else ItemContainers(path, node, n - 1) + Containers(path, node.items[n - 1], true)
  }

  function EntryContainers(path: string, node: Node, idempotence: bool, n: nat): seq<Container>
    requires node.Map? && n <= |node.entries|
    decreases node, 0, n
  {
    if n == 0 then []
    else
      var entry, before := node.entries[n - 1], EntryContainers(path, node, idempotence, n - 1);
      if entry.value.Scalar? then before
      else
        var newPath := NewPath(path, entry.key);
        before + [Container(newPath, entry.value, idempotence)] + Containers(newPath, entry.value, true)
  }

  /** What the containers stored under `key` leave there, one after the other. */
  function Outcome(cs: seq<Container>, key: string, v: Option<Value>): Option<Value>
    decreases |cs|
  {
    if cs == [] then v
    else
      var last, before := cs[|cs| - 1], Outcome(cs[..|cs| - 1], key, v);
      if last.path != key then before else Written(if last.cleared then None else before, last.node)
  }

  lemma {:induction false} OutcomeAppend(x: seq<Container>, y: seq<Container>, key: string, v: Option<Value>)
    ensures Outcome(x + y, key, v) == Outcome(y, key, Outcome(x, key, v))
    decreases |y|
  {
    hide Written;
    if y == [] {
      assert x + y == x;
    } else {
      assert (x + y)[..|x + y| - 1] == x + y[..|y| - 1];
      OutcomeAppend(x, y[..|y| - 1], key, v);
    }
  }

  lemma OutcomeOne(c: Container, key: string, v: Option<Value>)
    ensures Outcome([c], key, v) == if c.path != key then v else Written(if c.cleared then None else v, c.node)
  {
    assert [c][..0] == [];
  }

  /** Containers lie strictly below the path of their tree. */
  lemma {:induction false} ContainersBelow(path: string, node: Node, idempotence: bool)
    ensures forall c <- Containers(path, node, idempotence) :: path + ":" <= c.path
    decreases node, 1, 0
  {
    match node
    case Sequence(items) => ItemContainersBelow(path, node, |items|);
    case Map(entries) => EntryContainersBelow(path, node, idempotence, |entries|);
    case _ =>
  }

  lemma {:induction false} ItemContainersBelow(path: string, node: Node, n: nat)
    requires node.Sequence? && n <= |node.items|
    ensures forall c <- ItemContainers(path, node, n) :: path + ":" <= c.path
    decreases node, 0, n
  {
    if n > 0 {
      ItemContainersBelow(path, node, n - 1);
      ContainersBelow(path, node.items[n - 1], true);
    }
  }

  lemma {:induction false} EntryContainersBelow(path: string, node: Node, idempotence: bool, n: nat)
    requires node.Map? && n <= |node.entries|
    ensures forall c <- EntryContainers(path, node, idempotence, n) :: path + ":" <= c.path
    decreases node, 0, n
  {
    if n > 0 {
      EntryContainersBelow(path, node, idempotence, n - 1);
      ContainersBelow(NewPath(path, node.entries[n - 1].key), node.entries[n - 1].value, true);
    }
  }

  lemma {:induction false} OutcomeElsewhere(cs: seq<Container>, key: string, v: Option<Value>)
    requires forall c <- cs :: c.path != key
    ensures Outcome(cs, key, v) == v
    decreases |cs|
  {
    if cs != [] {
      assert forall c <- cs[..|cs| - 1] :: c in cs;
      OutcomeElsewhere(cs[..|cs| - 1], key, v);
    }
  }

  /** For every tree, path and store, and key by key: under its own path a load leaves what the
      root writes; under any other key, what the containers stored there leave in document
      order, each one that is cleared wiping out what was there before. */
  lemma {:induction false} LoadOutcome(path: string, node: Node, idempotence: bool, key: string, v: Option<Value>)
    ensures Effect(Ops(path, node, idempotence), key, v)
         == if key == path then Written(v, node) else Outcome(Containers(path, node, idempotence), key, v)
    decreases node, 1, 0
  {
    match node
    case Scalar(text) => EffectOne(Put(path, text), key, v);
    case Sequence(items) => ItemsOutcome(path, node, key, v, |items|);
    case Map(entries) => EntriesOutcome(path, node, idempotence, key, v, |entries|);
    case _ =>
  }

  lemma NothingDone(key: string, v: Option<Value>)
    ensures Effect([], key, v) == v && Outcome([], key, v) == v
  {
  }

  lemma AddOne(path: string, text: string, key: string, v: Option<Value>)
    ensures Effect([AddMember(path, text)], key, v) == if key == path then Include(v, text) else v
  {
    EffectOne(AddMember(path, text), key, v);
  }

  lemma {:induction false} ItemsOutcome(path: string, node: Node, key: string, v: Option<Value>, n: nat)
    requires node.Sequence? && n <= |node.items|
    ensures Effect(ItemOps(path, node, n), key, v)
         == if key == path then WrittenItems(v, node, n) else Outcome(ItemContainers(path, node, n), key, v)
    decreases node, 0, n
  {
    hide Change, Written, Effect, Outcome;
    if n == 0 {
      NothingDone(key, v);
    } else {
      ItemsOutcome(path, node, key, v, n - 1);
      var item, before := node.items[n - 1], Effect(ItemOps(path, node, n - 1), key, v);
      var ops := if item.Scalar? then [AddMember(path, item.text)] else Ops(path, item, true);
      EffectAppend(ItemOps(path, node, n - 1), ops, key, v);
      if item.Scalar? {
        AddOne(path, item.text, key, before);
        assert ItemContainers(path, node, n) == ItemContainers(path, node, n - 1);
      } else {
        LoadOutcome(path, item, true, key, before);
        OutcomeAppend(ItemContainers(path, node, n - 1), Containers(path, item, true), key, v);
      }
    }
  }

  lemma PutFieldOne(path: string, field: string, text: string, key: string, v: Option<Value>)
    ensures Effect([PutField(path, field, text)], key, v) == if key == path then SetField(v, field, text) else v
  {
    EffectOne(PutField(path, field, text), key, v);
  }

  lemma {:induction false} EntriesOutcome(path: string, node: Node, idempotence: bool, key: string, v: Option<Value>, n: nat)
    requires node.Map? && n <= |node.entries|
    ensures Effect(EntryOps(path, node, idempotence, n), key, v)
         == if key == path then WrittenEntries(v, node, n) else Outcome(EntryContainers(path, node, idempotence, n), key, v)
    decreases node, 0, n
  {
    hide Change, Written, Effect, Outcome, NewPath;
    if n == 0 {
      NothingDone(key, v);
    } else {
      EntriesOutcome(path, node, idempotence, key, v, n - 1);
      var entry, so, cs := node.entries[n - 1], EntryOps(path, node, idempotence, n - 1), EntryContainers(path, node, idempotence, n - 1);
      var before := Effect(so, key, v);
      if entry.value.Scalar? {
        EffectAppend(so, [PutField(path, entry.key, entry.value.text)], key, v);
        PutFieldOne(path, entry.key, entry.value.text, key, before);
      } else {
        ContainerOutcome(NewPath(path, entry.key), entry.value, idempotence, key, before);
        var ops := (if idempotence then [Delete(NewPath(path, entry.key))] else []) + Ops(NewPath(path, entry.key), entry.value, true);
        var more := [Container(NewPath(path, entry.key), entry.value, idempotence)] + Containers(NewPath(path, entry.key), entry.value, true);
        EffectAppend(so, ops, key, v);
        OutcomeAppend(cs, more, key, v);
        assert EntryContainers(path, node, idempotence, n) == cs + more;
        if key == path {
          ContainersBelow(NewPath(path, entry.key), entry.value, true);
          OutcomeElsewhere(more, key, before);
        }
      }
    }
  }

  lemma DeleteOne(path: string, key: string, v: Option<Value>)
    ensures Effect([Delete(path)], key, v) == if key == path then None else v
  {
    EffectOne(Delete(path), key, v);
  }

  /** One container: cleared if asked, then loaded. */
  lemma {:induction false} ContainerOutcome(path: string, node: Node, cleared: bool, key: string, v: Option<Value>)
    ensures Effect((if cleared then [Delete(path)] else []) + Ops(path, node, true), key, v)
         == Outcome([Container(path, node, cleared)] + Containers(path, node, true), key, v)
    decreases node, 2, 0
  {
    hide Written, Effect, Outcome;
    var first := if cleared then [Delete(path)] else [];
    var before := if cleared && key == path then None else v;
    assert Effect(first, key, v) == before by {
      if cleared { DeleteOne(path, key, v); } else { NothingDone(key, v); }
    }
    EffectAppend(first, Ops(path, node, true), key, v);
    LoadOutcome(path, node, true, key, before);
    OutcomeAppend([Container(path, node, cleared)], Containers(path, node, true), key, v);
    OutcomeOne(Container(path, node, cleared), key, v);
    if key == path {
      ContainersBelow(path, node, true);
      OutcomeElsewhere(Containers(path, node, true), key, Written(before, node));
    }
  }

  // ---------------------------------------------------------------------------
  // Reading back
  // ---------------------------------------------------------------------------

  /** Where a load ends under one key. */
  function Loaded(s: Store, path: string, node: Node, key: string): Option<Value> {
    Get(PerformAll(s, Ops(path, node, true)), key)
  }

  lemma LoadedIs(s: Store, path: string, node: Node, key: string)
    ensures Loaded(s, path, node, key)
         == if key == path then Written(Get(s, key), node) else Outcome(Containers(path, node, true), key, Get(s, key))
  {
    hide PerformAll, Effect, Ops, Containers, Outcome, Written;
    EachKeyAlone(s, Ops(path, node, true), key);
    LoadOutcome(path, node, true, key, Get(s, key));
  }

  /** A key that is neither the root path nor a container's keeps what it held. */
  lemma Untouched(s: Store, path: string, node: Node, key: string)
    requires key != path && forall c <- Containers(path, node, true) :: c.path != key
    ensures Loaded(s, path, node, key) == Get(s, key)
  {
    hide *;
    LoadedIs(s, path, node, key);
    OutcomeElsewhere(Containers(path, node, true), key, Get(s, key));
  }

  lemma {:induction false} AllCleared(path: string, node: Node)
    ensures forall c <- Containers(path, node, true) :: c.cleared
    decreases node, 1, 0
  {
    match node
    case Sequence(items) => ItemsCleared(path, node, |items|);
    case Map(entries) => EntriesCleared(path, node, |entries|);
    case _ =>
  }

  lemma {:induction false} ItemsCleared(path: string, node: Node, n: nat)
    requires node.Sequence? && n <= |node.items|
    ensures forall c <- ItemContainers(path, node, n) :: c.cleared
    decreases node, 0, n
  {
    if n > 0 {
      ItemsCleared(path, node, n - 1);
      AllCleared(path, node.items[n - 1]);
    }
  }

  lemma {:induction false} EntriesCleared(path: string, node: Node, n: nat)
    requires node.Map? && n <= |node.entries|
    ensures forall c <- EntryContainers(path, node, true, n) :: c.cleared
    decreases node, 0, n
  {
    if n > 0 {
      EntriesCleared(path, node, n - 1);
      AllCleared(NewPath(path, node.entries[n - 1].key), node.entries[n - 1].value);
    }
  }

  lemma {:induction false} LastWins(cs: seq<Container>, i: nat, v: Option<Value>)
    requires i < |cs| && cs[i].cleared && forall j | i < j < |cs| :: cs[j].path != cs[i].path
    ensures Outcome(cs, cs[i].path, v) == Written(None, cs[i].node)
    decreases |cs|
  {
    hide Written;
    if i < |cs| - 1 {
      LastWins(cs[..|cs| - 1], i, v);
    }
  }

  /** The last container stored under a path is read back as written on an empty key,
      whatever the store held there before. */
  lemma LastReadBack(s: Store, path: string, node: Node, i: nat)
    requires var cs := Containers(path, node, true);
      i < |cs| && forall j | i < j < |cs| :: cs[j].path != cs[i].path
    ensures var c := Containers(path, node, true)[i];
      c.path != path && Loaded(s, path, node, c.path) == Written(None, c.node)
  {
    hide Loaded, Written, Outcome, Containers;
    var cs := Containers(path, node, true);
    AllCleared(path, node);
    ContainersBelow(path, node, true);
    LastWins(cs, i, Get(s, cs[i].path));
    LoadedIs(s, path, node, cs[i].path);
  }

  lemma {:induction false} LastIndex(cs: seq<Container>, key: string, n: nat) returns (i: nat)
    requires n <= |cs| && (exists j :: 0 <= j < n && cs[j].path == key)
    requires forall j | n <= j < |cs| :: cs[j].path != key
    ensures i < |cs| && cs[i].path == key && forall j | i < j < |cs| :: cs[j].path != key
    decreases n
  {
    if cs[n - 1].path == key { i := n - 1; } else { i := LastIndex(cs, key, n - 1); }
  }

  /** Every key below the root that a load touches ends up independent of what was there. */
  lemma HistoryForgotten(s: Store, t: Store, path: string, node: Node, key: string)
    requires exists j :: 0 <= j < |Containers(path, node, true)| && Containers(path, node, true)[j].path == key
    ensures Loaded(s, path, node, key) == Loaded(t, path, node, key)
  {
    hide Loaded, Containers, Written;
    var cs := Containers(path, node, true);
    var i := LastIndex(cs, key, |cs|);
    LastReadBack(s, path, node, i);
    LastReadBack(t, path, node, i);
  }

  /** Every container is read back exactly when containers that share a path write the same. */
  lemma AllReadBack(s: Store, path: string, node: Node)
    ensures var cs := Containers(path, node, true);
      (forall i | 0 <= i < |cs| :: Loaded(s, path, node, cs[i].path) == Written(None, cs[i].node))
      <==> (forall i, j | 0 <= i < j < |cs| && cs[i].path == cs[j].path :: Written(None, cs[i].node) == Written(None, cs[j].node))
  {
    hide Loaded, Containers, Written;
    var cs := Containers(path, node, true);
    if forall i, j | 0 <= i < j < |cs| && cs[i].path == cs[j].path :: Written(None, cs[i].node) == Written(None, cs[j].node) {
      forall i | 0 <= i < |cs| ensures Loaded(s, path, node, cs[i].path) == Written(None, cs[i].node) {
        var k := LastIndex(cs, cs[i].path, |cs|);
        LastReadBack(s, path, node, k);
      }
    }
  }

  // ---------------------------------------------------------------------------
  // Trees whose containers get distinct paths
  // ---------------------------------------------------------------------------

  /** Neither key, spelled with colons, continues the other. */
  predicate Apart(k: string, l: string) {
    Colons(k) != Colons(l) && !(Colons(k) + ":" <= Colons(l)) && !(Colons(l) + ":" <= Colons(k))
  }

  predicate PlainKey(key: string) { '_' !in key && ':' !in key }

  lemma ContinuedHasColon(k: string, l: string)
    requires k + ":" <= l
    ensures ':' in l
  {
    assert l[|k|] == ':';
  }

  /** Distinct keys without underscores and colons are apart. */
  lemma PlainKeysApart(k: string, l: string)
    requires k != l && PlainKey(k) && PlainKey(l)
    ensures Apart(k, l)
  {
    assert Colons(k) == k && Colons(l) == l;
    if k + ":" <= l { ContinuedHasColon(k, l); }
    if l + ":" <= k { ContinuedHasColon(l, k); }
  }

  /** Sequences hold scalars only, and the container keys of a map are apart. */
  predicate Tidy(node: Node) {
    match node
    case Sequence(items) => forall item <- items :: item.Scalar?
    case Map(entries) =>
      && (forall i, j | 0 <= i < j < |entries| && !entries[i].value.Scalar? && !entries[j].value.Scalar? ::
            Apart(entries[i].key, entries[j].key))
      && forall i | 0 <= i < |entries| :: Tidy(entries[i].value)
    case _ => true
  }

  predicate Under(base: string, key: string) { key == base || base + ":" <= key }

  lemma SameLengthPrefixes(a: string, b: string, key: string)
    requires |a| == |b| && Under(a, key) && Under(b, key)
    ensures a == b
  {
    assert a == key[..|a|] && b == key[..|b|];
  }

  lemma PrefixContinues(a: string, b: string, key: string)
    requires |a| < |b| && Under(a, key) && Under(b, key)
    ensures a + ":" <= b
  {
    assert key[..|b|] == b && key[..|a| + 1] == a + ":";
  }

  lemma ApartPaths(path: string, k: string, l: string, key: string)
    requires Apart(k, l) && Under(NewPath(path, k), key)
    ensures !Under(NewPath(path, l), key)
  {
    var a, b := NewPath(path, k), NewPath(path, l);
    assert b[|path| + 1..] == Colons(l) && a[|path| + 1..] == Colons(k);
    if Under(b, key) {
      if |k| < |l| {
        PrefixContinues(a, b, key);
      } else if |l| < |k| {
        PrefixContinues(b, a, key);
      } else {
        SameLengthPrefixes(a, b, key);
      }
    }
  }

  predicate Distinct(cs: seq<Container>) {
    forall i, j | 0 <= i < j < |cs| :: cs[i].path != cs[j].path
  }

  lemma {:induction false} ScalarItems(path: string, node: Node, n: nat)
    requires node.Sequence? && n <= |node.items| && forall item <- node.items :: item.Scalar?
    ensures ItemContainers(path, node, n) == []
    decreases n
  {
    if n > 0 { ScalarItems(path, node, n - 1); }
  }

  lemma {:induction false} DistinctPaths(path: string, node: Node, idempotence: bool)
    requires Tidy(node)
    ensures Distinct(Containers(path, node, idempotence))
    decreases node, 1, 0
  {
    match node
    case Sequence(items) => ScalarItems(path, node, |items|);
    case Map(entries) => EntryPaths(path, node, idempotence, |entries|);
    case _ =>
  }

  /** The container entry, among the first `n`, that a path belongs to. */
  predicate Belongs(path: string, node: Node, n: nat, key: string)
    requires node.Map? && n <= |node.entries|
  {
    exists m | 0 <= m < n :: !node.entries[m].value.Scalar? && Under(NewPath(path, node.entries[m].key), key)
  }

  lemma BlockUnder(base: string, block: seq<Container>)
    requires |block| > 0 && block[0].path == base && Distinct(block[1..])
    requires forall c <- block[1..] :: base + ":" <= c.path
    ensures Distinct(block) && forall c <- block :: Under(base, c.path)
  {
    forall i | 0 < i < |block| ensures base + ":" <= block[i].path { assert block[i] == block[1..][i - 1]; }
    forall i, j | 0 < i < j < |block| ensures block[i].path != block[j].path {
      assert block[i] == block[1..][i - 1] && block[j] == block[1..][j - 1];
    }
  }

  lemma SeparateDistinct(base: string, x: seq<Container>, y: seq<Container>)
    requires Distinct(x) && Distinct(y)
    requires (forall c <- x :: !Under(base, c.path)) && forall c <- y :: Under(base, c.path)
    ensures Distinct(x + y)
  {
    hide Under;
  }

  lemma JoinDistinct(path: string, node: Node, idempotence: bool, n: nat)
    requires node.Map? && Tidy(node) && 0 < n <= |node.entries| && !node.entries[n - 1].value.Scalar?
    requires var before := EntryContainers(path, node, idempotence, n - 1);
      Distinct(before) && forall c <- before :: Belongs(path, node, n - 1, c.path)
    requires Distinct(Containers(NewPath(path, node.entries[n - 1].key), node.entries[n - 1].value, true))
    ensures var cs := EntryContainers(path, node, idempotence, n);
      Distinct(cs) && forall c <- cs :: Belongs(path, node, n, c.path)
  {
    hide NewPath, Under, Apart, Containers;
    var entry, before := node.entries[n - 1], EntryContainers(path, node, idempotence, n - 1);
    var newPath := NewPath(path, entry.key);
    var inner := Containers(newPath, entry.value, true);
    ContainersBelow(newPath, entry.value, true);
    var block := [Container(newPath, entry.value, idempotence)] + inner;
    BlockUnder(newPath, block);
    forall c <- before ensures !Under(newPath, c.path) {
      var m :| 0 <= m < n - 1 && !node.entries[m].value.Scalar? && Under(NewPath(path, node.entries[m].key), c.path);
      ApartPaths(path, node.entries[m].key, entry.key, c.path);
    }
    assert EntryContainers(path, node, idempotence, n) == before + block;
    SeparateDistinct(newPath, before, block);
  }

  lemma {:induction false} EntryPaths(path: string, node: Node, idempotence: bool, n: nat)
    requires node.Map? && Tidy(node) && n <= |node.entries|
    ensures Distinct(EntryContainers(path, node, idempotence, n))
    ensures forall c <- EntryContainers(path, node, idempotence, n) :: Belongs(path, node, n, c.path)
    decreases node, 0, n
  {
    if n > 0 {
      var entry, before := node.entries[n - 1], EntryContainers(path, node, idempotence, n - 1);
      EntryPaths(path, node, idempotence, n - 1);
      if !entry.value.Scalar? {
        DistinctPaths(NewPath(path, entry.key), entry.value, true);
        JoinDistinct(path, node, idempotence, n);
      }
    }
  }

  /** In a tidy tree every container is read back, whatever the store held. */
  lemma TidyReadBack(s: Store, path: string, node: Node, i: nat)
    requires Tidy(node) && i < |Containers(path, node, true)|
    ensures var c := Containers(path, node, true)[i]; Loaded(s, path, node, c.path) == Written(None, c.node)
  {
    hide Loaded, Written, Containers, Tidy;
    DistinctPaths(path, node, true);
    LastReadBack(s, path, node, i);
  }

  // ---------------------------------------------------------------------------
  // What a container holds
  // ---------------------------------------------------------------------------

  /** The keys of the scalars among the first `n` entries. */
  function ScalarKeys(node: Node, n: nat): set<string>
    requires node.Map? && n <= |node.entries|
  {
    set i | 0 <= i < n && node.entries[i].value.Scalar? :: node.entries[i].key
  }

  function FieldsAfter(m: map<string, string>, node: Node, n: nat): map<string, string>
    requires node.Map? && n <= |node.entries|
    decreases n
  {
    if n == 0 then m
    else
      var entry, before := node.entries[n - 1], FieldsAfter(m, node, n - 1);
      if entry.value.Scalar? then before[entry.key := entry.value.text] else before
  }

  lemma {:induction false} FieldsAfterKeys(m: map<string, string>, node: Node, n: nat)
    requires node.Map? && n <= |node.entries|
    ensures FieldsAfter(m, node, n).Keys == m.Keys + ScalarKeys(node, n)
    decreases n
  {
    if n > 0 {
      FieldsAfterKeys(m, node, n - 1);
      var entry := node.entries[n - 1];
      assert ScalarKeys(node, n) == ScalarKeys(node, n - 1) + if entry.value.Scalar? then {entry.key} else {};
    }
  }

  lemma {:induction false} FieldsAfterLast(m: map<string, string>, node: Node, n: nat, i: nat)
    requires node.Map? && i < n <= |node.entries| && node.entries[i].value.Scalar?
    requires forall j | i < j < n && node.entries[j].value.Scalar? :: node.entries[j].key != node.entries[i].key
    ensures node.entries[i].key in FieldsAfter(m, node, n)
    ensures FieldsAfter(m, node, n)[node.entries[i].key] == node.entries[i].value.text
    decreases n
  {
    if i < n - 1 {
      FieldsAfterLast(m, node, n - 1, i);
    }
  }

  lemma {:induction false} OnFields(m: map<string, string>, node: Node, n: nat)
    requires node.Map? && n <= |node.entries|
    ensures WrittenEntries(Some(Hash(m)), node, n) == Some(Hash(FieldsAfter(m, node, n)))
    ensures WrittenEntries(None, node, n)
         == if ScalarKeys(node, n) == {} then None else Some(Hash(FieldsAfter(map[], node, n)))
    decreases n
  {
    if n > 0 {
      OnFields(m, node, n - 1);
      var entry := node.entries[n - 1];
      assert ScalarKeys(node, n) == ScalarKeys(node, n - 1) + if entry.value.Scalar? then {entry.key} else {};
      if ScalarKeys(node, n - 1) == {} {
        FieldsAfterKeys(map[], node, n - 1);
        assert FieldsAfter(map[], node, n - 1) == map[];
      }
    }
  }

  lemma {:induction false} OnAnotherKind(v: Value, node: Node, n: nat)
    requires node.Map? && n <= |node.entries| && !v.Hash?
    ensures WrittenEntries(Some(v), node, n) == Some(v)
    decreases n
  {
    if n > 0 { OnAnotherKind(v, node, n - 1); }
  }

  /** No later scalar repeats the key. */
  predicate LastScalar(node: Node, i: nat)
    requires node.Map? && i < |node.entries|
  {
    && node.entries[i].value.Scalar?
    && forall j | i < j < |node.entries| && node.entries[j].value.Scalar? :: node.entries[j].key != node.entries[i].key
  }

  lemma WrittenMap(v: Option<Value>, node: Node)
    requires node.Map?
    ensures Written(v, node) == WrittenEntries(v, node, |node.entries|)
  {
  }

  /** A map with scalars can be read back as a hash exactly when its path held nothing or a hash.
      Its scalars are then the fields, the last one under a key counting, beside the fields
      that were there; otherwise all of them are lost. */
  lemma MapFields(v: Option<Value>, node: Node)
    requires node.Map? && ScalarKeys(node, |node.entries|) != {}
    ensures var r := Written(v, node);
      && r.Some? && (r.value.Hash? <==> v == None || v.value.Hash?) && (!r.value.Hash? ==> r == v)
      && (r.value.Hash? ==>
            && r.value.fields.Keys == (if v.Some? then v.value.fields.Keys else {}) + ScalarKeys(node, |node.entries|)
            && forall i | 0 <= i < |node.entries| && LastScalar(node, i) ::
                 r.value.fields[node.entries[i].key] == node.entries[i].value.text)
  {
    hide Written, WrittenEntries, ScalarKeys, FieldsAfter;
    var n := |node.entries|;
    WrittenMap(v, node);
    if v.Some? && !v.value.Hash? {
      OnAnotherKind(v.value, node, n);
    } else {
      var m := if v.Some? then v.value.fields else map[];
      OnFields(m, node, n);
      FieldsAfterKeys(m, node, n);
      forall i | 0 <= i < n && LastScalar(node, i)
        ensures node.entries[i].key in FieldsAfter(m, node, n)
        ensures FieldsAfter(m, node, n)[node.entries[i].key] == node.entries[i].value.text
      {
        FieldsAfterLast(m, node, n, i);
      }
    }
  }

  function Texts(items: seq<Node>): set<string>
    requires forall item <- items :: item.Scalar?
  {
    set item <- items :: item.text
  }

  lemma TextsGrow(items: seq<Node>, item: Node)
    requires item.Scalar? && forall x <- items :: x.Scalar?
    ensures Texts(items + [item]) == Texts(items) + {item.text} && Texts([]) == {}
  {
    assert item in items + [item];
    forall x <- items ensures x in items + [item] {}
  }

  lemma {:induction false} ItemMembers(node: Node, n: nat)
    requires node.Sequence? && n <= |node.items| && forall item <- node.items :: item.Scalar?
    ensures WrittenItems(None, node, n) == if n == 0 then None else Some(Members(Texts(node.items[..n])))
    decreases n
  {
    hide Texts;
    if n > 0 {
      ItemMembers(node, n - 1);
      TextsGrow(node.items[..n - 1], node.items[n - 1]);
      assert node.items[..n] == node.items[..n - 1] + [node.items[n - 1]];
      assert n == 1 ==> node.items[..0] == [] && {} + {node.items[0].text} == {node.items[0].text};
    }
  }

  /** A sequence of scalars is read back as exactly the set of its texts; an empty one leaves no key. */
  lemma SequenceMembers(node: Node)
    requires node.Sequence? && forall item <- node.items :: item.Scalar?
    ensures Written(None, node) == if node.items == [] then None else Some(Members(Texts(node.items)))
  {
    ItemMembers(node, |node.items|);
    assert node.items[..|node.items|] == node.items;
  }

  // ---------------------------------------------------------------------------
  // Plain trees: everything is read back
  // ---------------------------------------------------------------------------

  /** Map keys are unique and free of underscores and colons, and sequences hold scalars. */
  predicate Plain(node: Node) {
    match node
    case Sequence(items) => forall item <- items :: item.Scalar?
    case Map(entries) =>
      && (forall i, j | 0 <= i < j < |entries| :: entries[i].key != entries[j].key)
      && forall i | 0 <= i < |entries| :: PlainKey(entries[i].key) && Plain(entries[i].value)
    case _ => true
  }

  lemma {:induction false} PlainIsTidy(node: Node)
    requires Plain(node)
    ensures Tidy(node)
  {
    if node.Map? {
      var entries := node.entries;
      forall i, j | 0 <= i < j < |entries| ensures Apart(entries[i].key, entries[j].key) {
        PlainKeysApart(entries[i].key, entries[j].key);
      }
      forall i | 0 <= i < |entries| ensures Tidy(entries[i].value) {
        PlainIsTidy(entries[i].value);
      }
    }
  }

  /** The position of a key in a map, or the number of entries. */
  function IndexOf(entries: seq<Entry>, key: string): (i: nat)
    ensures i <= |entries| && (i < |entries| ==> entries[i].key == key)
  {
    if entries == [] || entries[0].key == key then 0 else 1 + IndexOf(entries[1..], key)
  }

  /** The node that a list of keys leads to, from map to map. */
  function Find(node: Node, keys: seq<string>): Option<Node>
    decreases |keys|
  {
    if keys == [] then Some(node)
    else if !node.Map? || IndexOf(node.entries, keys[0]) == |node.entries| then None
    else Find(node.entries[IndexOf(node.entries, keys[0])].value, keys[1..])
  }

  function PathOf(path: string, keys: seq<string>): string
    decreases |keys|
  {
    if keys == [] then path else PathOf(NewPath(path, keys[0]), keys[1..])
  }

  lemma {:induction false} PathUnder(path: string, keys: seq<string>)
    ensures Under(path, PathOf(path, keys))
    decreases |keys|
  {
    if keys != [] {
      var newPath := NewPath(path, keys[0]);
      PathUnder(newPath, keys[1..]);
      assert path + ":" <= newPath;
    }
  }

  lemma LongerPath(path: string, keys: seq<string>)
    requires keys != []
    ensures |PathOf(path, keys)| > |path|
  {
    PathUnder(NewPath(path, keys[0]), keys[1..]);
  }

  /** Distinct lists of plain keys spell distinct paths. */
  lemma {:induction false} PlainPathsDistinct(path: string, keys: seq<string>, others: seq<string>)
    requires (forall key <- keys :: PlainKey(key)) && (forall key <- others :: PlainKey(key))
    ensures PathOf(path, keys) == PathOf(path, others) <==> keys == others
    decreases |keys|
  {
    hide NewPath, Apart, Under;
    if keys != [] && others != [] {
      var k, l := keys[0], others[0];
      assert PlainKey(k) && PlainKey(l);
      PathUnder(NewPath(path, k), keys[1..]);
      PathUnder(NewPath(path, l), others[1..]);
      if k == l {
        PlainPathsDistinct(NewPath(path, k), keys[1..], others[1..]);
        assert keys == [k] + keys[1..] && others == [l] + others[1..];
      } else {
        PlainKeysApart(k, l);
        ApartPaths(path, k, l, PathOf(path, keys));
      }
    } else {
      if keys != [] { LongerPath(path, keys); }
      if others != [] { LongerPath(path, others); }
    }
  }

  lemma {:induction false} EntryContainersGrow(path: string, node: Node, idempotence: bool, j: nat, n: nat)
    requires node.Map? && j < n <= |node.entries| && !node.entries[j].value.Scalar?
    ensures var newPath := NewPath(path, node.entries[j].key);
      && Container(newPath, node.entries[j].value, idempotence) in EntryContainers(path, node, idempotence, n)
      && forall c <- Containers(newPath, node.entries[j].value, true) :: c in EntryContainers(path, node, idempotence, n)
    decreases n
  {
    hide NewPath;
    if j < n - 1 { EntryContainersGrow(path, node, idempotence, j, n - 1); }
  }

  /** What a list of keys leads to, unless it is a scalar, is one of the containers. */
  lemma {:induction false} FoundIsContainer(path: string, node: Node, keys: seq<string>)
    requires keys != [] && Find(node, keys).Some? && !Find(node, keys).value.Scalar?
    ensures Container(PathOf(path, keys), Find(node, keys).value, true) in Containers(path, node, true)
    decreases |keys|
  {
    hide NewPath;
    var j := IndexOf(node.entries, keys[0]);
    var child := node.entries[j].value;
    if !child.Scalar? {
      EntryContainersGrow(path, node, true, j, |node.entries|);
      if |keys| > 1 { FoundIsContainer(NewPath(path, keys[0]), child, keys[1..]); }
    }
  }

  lemma {:induction false} FoundIsPlain(node: Node, keys: seq<string>)
    requires Plain(node) && Find(node, keys).Some?
    ensures Plain(Find(node, keys).value)
    decreases |keys|
  {
    if keys != [] {
      FoundIsPlain(node.entries[IndexOf(node.entries, keys[0])].value, keys[1..]);
    }
  }

  /** A value from which the scalars directly in a node can be read: a map's under their keys and
      nothing else, a sequence's as exactly the set of its texts, and no value where there are none. */
  ghost predicate Holds(v: Option<Value>, node: Node)
    requires node.Sequence? ==> forall item <- node.items :: item.Scalar?
  {
    match node
    case Map(entries) =>
      if ScalarKeys(node, |entries|) == {} then v == None
      else
        && v.Some? && v.value.Hash? && v.value.fields.Keys == ScalarKeys(node, |entries|)
        && forall i | 0 <= i < |entries| && entries[i].value.Scalar? :: v.value.fields[entries[i].key] == entries[i].value.text
    case Sequence(items) => v == if items == [] then None else Some(Members(Texts(items)))
    case Scalar(text) => v == Some(Text(text))
    case _ => v == None
  }

  lemma PlainHolds(node: Node)
    requires Plain(node)
    ensures Holds(Written(None, node), node)
  {
    match node
    case Map(entries) =>
      if ScalarKeys(node, |entries|) == {} {
        OnFields(map[], node, |entries|);
      } else {
        MapFields(None, node);
        forall i | 0 <= i < |entries| && entries[i].value.Scalar?
          ensures LastScalar(node, i) && entries[i].key in ScalarKeys(node, |entries|)
        {
        }
      }
    case Sequence(items) => SequenceMembers(node);
    case _ =>
  }

  /** In a plain tree every scalar is read back, whatever the store held: wherever a list of keys
      leads to a map or a sequence, the path it spells holds exactly that node's scalars. For the
      root, whose path no load clears, the path has to be free. */
  lemma PlainReadBack(s: Store, path: string, node: Node, keys: seq<string>)
    requires Plain(node) && Find(node, keys).Some? && !Find(node, keys).value.Scalar?
    requires keys == [] ==> Get(s, path) == None
    ensures Find(node, keys).value.Sequence? ==> forall item <- Find(node, keys).value.items :: item.Scalar?
    ensures Holds(Loaded(s, path, node, PathOf(path, keys)), Find(node, keys).value)
  {
    var child := Find(node, keys).value;
    FoundIsPlain(node, keys);
    PlainHolds(child);
    hide Loaded, Written, Containers, Tidy, Holds, NewPath, Outcome;
    if keys == [] {
      LoadedIs(s, path, node, path);
    } else {
      PlainIsTidy(node);
      FoundIsContainer(path, node, keys);
      var cs := Containers(path, node, true);
      var i :| 0 <= i < |cs| && cs[i] == Container(PathOf(path, keys), child, true);
      TidyReadBack(s, path, node, i);
    }
  }

  // ---------------------------------------------------------------------------
  // Loading without clearing
  // ---------------------------------------------------------------------------

  /** Where a load that is not to be idempotent ends under one key. */
  function Merged(s: Store, path: string, node: Node, key: string): Option<Value> {
    Get(PerformAll(s, Ops(path, node, false)), key)
  }

  lemma MergedIs(s: Store, path: string, node: Node, key: string)
    requires key != path
    ensures Merged(s, path, node, key) == Outcome(Containers(path, node, false), key, Get(s, key))
  {
    hide PerformAll, Effect, Ops, Containers, Outcome, Written;
    EachKeyAlone(s, Ops(path, node, false), key);
    LoadOutcome(path, node, false, key, Get(s, key));
  }

  lemma {:induction false} OnlyOne(cs: seq<Container>, i: nat, v: Option<Value>)
    requires i < |cs| && Distinct(cs)
    ensures Outcome(cs, cs[i].path, v) == Written(if cs[i].cleared then None else v, cs[i].node)
    decreases |cs|
  {
    hide Written;
    var before := cs[..|cs| - 1];
    if i < |cs| - 1 {
      OnlyOne(before, i, v);
    } else {
      OutcomeElsewhere(before, cs[i].path, v);
    }
  }

  /** Of a load that is not to be idempotent, only the containers directly under the root are not cleared. */
  lemma FoundIsMerged(path: string, node: Node, keys: seq<string>)
    requires keys != [] && Find(node, keys).Some? && !Find(node, keys).value.Scalar?
    ensures Container(PathOf(path, keys), Find(node, keys).value, |keys| > 1) in Containers(path, node, false)
  {
    hide NewPath;
    var j := IndexOf(node.entries, keys[0]);
    var child := node.entries[j].value;
    if !child.Scalar? {
      EntryContainersGrow(path, node, false, j, |node.entries|);
      if |keys| > 1 { FoundIsContainer(NewPath(path, keys[0]), child, keys[1..]); }
    }
  }

  /** In a plain tree such a load writes a container directly under the root over what its path held, so that
      fields and members are added to those that were there; everything deeper is still read back
      as if written on an empty key. */
  lemma PlainMerged(s: Store, path: string, node: Node, keys: seq<string>)
    requires Plain(node) && keys != [] && Find(node, keys).Some? && !Find(node, keys).value.Scalar?
    ensures |keys| == 1 ==> Merged(s, path, node, PathOf(path, keys)) == Written(Get(s, PathOf(path, keys)), Find(node, keys).value)
    ensures Find(node, keys).value.Sequence? ==> forall item <- Find(node, keys).value.items :: item.Scalar?
    ensures |keys| > 1 ==> Holds(Merged(s, path, node, PathOf(path, keys)), Find(node, keys).value)
  {
    var child, key := Find(node, keys).value, PathOf(path, keys);
    FoundIsPlain(node, keys);
    PlainHolds(child);
    hide Merged, Written, Containers, Tidy, Holds, NewPath, Outcome, Plain;
    PlainIsTidy(node);
    DistinctPaths(path, node, false);
    FoundIsMerged(path, node, keys);
    var cs := Containers(path, node, false);
    var i :| 0 <= i < |cs| && cs[i] == Container(key, child, |keys| > 1);
    OnlyOne(cs, i, Get(s, key));
    LongerPath(path, keys);
    MergedIs(s, path, node, key);
  }

  lemma EntryContainersStep(path: string, node: Node, n: nat)
    requires node.Map? && 0 < n <= |node.entries| && !node.entries[n - 1].value.Scalar?
    ensures EntryContainers(path, node, true, 0) == []
    ensures var entry := node.entries[n - 1];
      EntryContainers(path, node, true, n) == EntryContainers(path, node, true, n - 1)
        + [Container(NewPath(path, entry.key), entry.value, true)] + Containers(NewPath(path, entry.key), entry.value, true)
  {
  }

  lemma ContainersListed(first: Node, second: Node)
    requires Containers("r:a:b", first, true) == [] == Containers("r:a:b", second, true) && !first.Scalar? && !second.Scalar?
    ensures Containers("r", Map([Entry("a_b", first), Entry("a", Map([Entry("b", second)]))]), true)
         == [Container("r:a:b", first, true), Container("r:a", Map([Entry("b", second)]), true), Container("r:a:b", second, true)]
  {
    assert Colons("a_b") == "a:b" && Colons("a") == "a" && Colons("b") == "b";
    assert NewPath("r", "a_b") == "r:a:b" && NewPath("r", "a") == "r:a" && NewPath("r:a", "b") == "r:a:b";
    var below := Map([Entry("b", second)]);
    var node := Map([Entry("a_b", first), Entry("a", below)]);
    EntryContainersStep("r:a", below, 1);
    EntryContainersStep("r", node, 1);
    EntryContainersStep("r", node, 2);
  }

  /** Underscores and nesting can spell the same path: the first of two containers is then lost. */
  lemma SpelledTwice(s: Store)
    ensures var first := Map([Entry("x", Scalar("1"))]);
      var second := Map([Entry("y", Scalar("2"))]);
      var node := Map([Entry("a_b", first), Entry("a", Map([Entry("b", second)]))]);
      && !Tidy(node)
      && Loaded(s, "r", node, "r:a:b") == Some(Hash(map["y" := "2"]))
      && Written(None, first) == Some(Hash(map["x" := "1"]))
  {
    var first := Map([Entry("x", Scalar("1"))]);
    var second := Map([Entry("y", Scalar("2"))]);
    var below := Map([Entry("b", second)]);
    var node := Map([Entry("a_b", first), Entry("a", below)]);
    assert Colons("a_b") == "a:b" && Colons("a") == "a" && Colons("b") == "b";
    assert Colons("a") + ":" <= Colons("a_b");
    assert !Apart(node.entries[0].key, node.entries[1].key);
    assert NewPath("r", "a_b") == "r:a:b" && NewPath("r", "a") == "r:a" && NewPath("r:a", "b") == "r:a:b";
    OnFields(map[], first, 1);
    OnFields(map[], second, 1);
    ContainersListed(first, second);
    LastReadBack(s, "r", node, 2);
  }
}
