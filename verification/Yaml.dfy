/** Event streams of a YAML emitter, and the trees they stand for. */
module Yaml {
  import opened Common

  datatype Scalar = Str(s: string) | Int(n: int) | Num(r: real)

  datatype Token = BeginMap | EndMap | BeginSeq | EndSeq | Key | Value | Atom(a: Scalar)

  datatype Tree = Leaf(a: Scalar) | Mapping(entries: Entries) | Sequence(items: Items)
  datatype Entries = NoEntries | Entry(key: string, value: Tree, rest: Entries)
  datatype Items = NoItems | Item(value: Tree, rest: Items)

  function Emit(t: Tree): seq<Token> {
    match t
    case Leaf(a) => [Atom(a)]
    case Mapping(es) => [BeginMap] + EmitEntries(es) + [EndMap]
    case Sequence(items) => [BeginSeq] + EmitItems(items) + [EndSeq]
  }

  function EmitEntries(es: Entries): seq<Token> {
    match es
    case NoEntries => []
    case Entry(k, v, rest) => [Key, Atom(Str(k)), Value] + Emit(v) + EmitEntries(rest)
  }

  function EmitItems(items: Items): seq<Token> {
    match items
    case NoItems => []
    case Item(v, rest) => Emit(v) + EmitItems(rest)
  }

  /** Reads one tree; the result also holds the tokens behind it. */
  function Parse(ts: seq<Token>): (r: Option<(Tree, seq<Token>)>)
    ensures r.Some? ==> |r.value.1| < |ts|
    decreases |ts|, 0
  {
    if ts == [] then None
    else
      match ts[0]
      case Atom(a) => Some((Leaf(a), ts[1..]))
      case BeginMap =>
        (match ParseEntries(ts[1..])
         case Some((es, rest)) => Some((Mapping(es), rest))
         case None => None)
      case BeginSeq =>
        (match ParseItems(ts[1..])
         case Some((items, rest)) => Some((Sequence(items), rest))
         case None => None)
      case _ => None
  }

  /** Reads the entries of a mapping and its end. */
  function ParseEntries(ts: seq<Token>): (r: Option<(Entries, seq<Token>)>)
    ensures r.Some? ==> |r.value.1| < |ts|
    decreases |ts|, 1
  {
    if ts != [] && ts[0] == EndMap then Some((NoEntries, ts[1..]))
    else if |ts| < 4 || ts[0] != Key || !ts[1].Atom? || !ts[1].a.Str? || ts[2] != Value then None
    else
      match Parse(ts[3..])
      case None => None
      case Some((v, more)) =>
        match ParseEntries(more)
        case None => None
        case Some((es, rest)) => Some((Entry(ts[1].a.s, v, es), rest))
  }

  /** Reads the items of a sequence and its end. */
  function ParseItems(ts: seq<Token>): (r: Option<(Items, seq<Token>)>)
    ensures r.Some? ==> |r.value.1| < |ts|
    decreases |ts|, 1
  {
    if ts != [] && ts[0] == EndSeq then Some((NoItems, ts[1..]))
    else
      match Parse(ts)
      case None => None
      case Some((v, more)) =>
        match ParseItems(more)
        case None => None
        case Some((items, rest)) => Some((Item(v, items), rest))
  }

  /** Reading what was emitted gives the tree back, whatever follows it. */
  lemma {:induction false} ParseEmitted(t: Tree, rest: seq<Token>)
    ensures Parse(Emit(t) + rest) == Some((t, rest))
    decreases t
  {
    match t
    case Leaf(a) =>
      assert (Emit(t) + rest)[1..] == rest;
    case Mapping(es) =>
      assert (Emit(t) + rest)[1..] == EmitEntries(es) + ([EndMap] + rest);
      ParseEmittedEntries(es, rest);
    case Sequence(items) =>
      assert (Emit(t) + rest)[1..] == EmitItems(items) + ([EndSeq] + rest);
      ParseEmittedItems(items, rest);
  }

  lemma {:induction false} ParseEmittedEntries(es: Entries, rest: seq<Token>)
    ensures ParseEntries(EmitEntries(es) + ([EndMap] + rest)) == Some((es, rest))
    decreases es
  {
    var ts := EmitEntries(es) + ([EndMap] + rest);
    match es
    case NoEntries =>
      assert ts[0] == EndMap && ts[1..] == rest;
    case Entry(k, v, more) =>
      var behind := EmitEntries(more) + ([EndMap] + rest);
      assert ts[3..] == Emit(v) + behind;
      ParseEmitted(v, behind);
      ParseEmittedEntries(more, rest);
  }

  lemma FirstTokenOfTree(t: Tree)
    ensures Emit(t) != [] && Emit(t)[0] != EndSeq
  {
  }

  lemma {:induction false} ParseEmittedItems(items: Items, rest: seq<Token>)
    ensures ParseItems(EmitItems(items) + ([EndSeq] + rest)) == Some((items, rest))
    decreases items
  {
    var ts := EmitItems(items) + ([EndSeq] + rest);
    match items
    case NoItems =>
      assert ts[0] == EndSeq && ts[1..] == rest;
    case Item(v, more) =>
      var behind := EmitItems(more) + ([EndSeq] + rest);
      assert ts == Emit(v) + behind;
      FirstTokenOfTree(v);
      ParseEmitted(v, behind);
      ParseEmittedItems(more, rest);
  }

  /** Two trees with the same events are the same tree. */
  lemma EmitIsInjective(t: Tree, u: Tree)
    requires Emit(t) == Emit(u)
    ensures t == u
  {
    ParseEmitted(t, []);
    ParseEmitted(u, []);
  }

  function Lookup(es: Entries, key: string): Option<Tree> {
    match es
    case NoEntries => None
    case Entry(k, v, rest) => if k == key then Some(v) else Lookup(rest, key)
  }

  /** The value under a key of a mapping. */
  function Child(t: Option<Tree>, key: string): Option<Tree> {
    if t.Some? && t.value.Mapping? then Lookup(t.value.entries, key) else None
  }

  /** The first item of a sequence. */
  function First(t: Option<Tree>): Option<Tree> {
    if t.Some? && t.value.Sequence? && t.value.items.Item? then Some(t.value.items.value) else None
  }
}
