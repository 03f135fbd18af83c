/** Translation trees: reordering like English, stripping blanks, and skeletons. */
module LangTrees {
  import opened Text

  datatype Node = Str(text: string) | Arr(items: seq<Node>) | Obj(fields: seq<Field>)
  datatype Field = Field(key: string, value: Node)

  // ---------------------------------------------------------------- objects as ordered fields

  predicate HasKey(fields: seq<Field>, key: string) {
    exists i :: 0 <= i < |fields| && fields[i].key == key
  }

  /** `fields[key]`. */
  function Find(fields: seq<Field>, key: string): (r: Option<Node>)
    ensures r.Some? <==> HasKey(fields, key)
    ensures r.Some? ==> Field(key, r.value) in fields
  {
    if fields == [] then None
    else if fields[0].key == key then Some(fields[0].value)
    else
      assert HasKey(fields, key) <==> HasKey(fields[1..], key);
      Find(fields[1..], key)
  }

  ghost predicate DistinctKeys(fields: seq<Field>) {
    forall i, j :: 0 <= i < j < |fields| ==> fields[i].key != fields[j].key
  }

  /** Keys are distinct in every object that is not inside an array. */
  ghost predicate WellFormed(node: Node) {
    node.Obj? ==> DistinctKeys(node.fields) && forall i :: 0 <= i < |node.fields| ==> WellFormed(node.fields[i].value)
  }

  lemma {:induction false} FindConcat(a: seq<Field>, b: seq<Field>, key: string)
    ensures Find(a + b, key) == if Find(a, key).Some? then Find(a, key) else Find(b, key)
  {
    if a == [] {
      assert a + b == b;
    } else {
      assert (a + b)[1..] == a[1..] + b;
      FindConcat(a[1..], b, key);
    }
  }

  // ---------------------------------------------------------------- reordering

  function ReorderLike(base: Node, target: Node): (r: Node)
    decreases base, 1
  {
    if !base.Obj? || !target.Obj? then target
    else
      var shared := Shared(base.fields, target.fields);
      Obj(shared + Extras(target.fields, shared))
  }

  /** The keys of the base that the target has, in the base's order. */
  function Shared(base: seq<Field>, target: seq<Field>): seq<Field>
    decreases base, 0
  {
    if base == [] then []
    else
      var rest := Shared(base[1..], target);
      match Find(target, base[0].key)
      case None => rest
      case Some(v) => [Field(base[0].key, ReorderLike(base[0].value, v))] + rest
  }

  /** The fields whose key has not been written yet. */
  function Extras(target: seq<Field>, written: seq<Field>): seq<Field> {
    if target == [] then []
    else (if HasKey(written, target[0].key) then [] else [target[0]]) + Extras(target[1..], written)
  }

  lemma {:induction false} SharedFind(base: seq<Field>, target: seq<Field>, key: string)
    ensures Find(Shared(base, target), key) ==
      match Find(base, key)
      case None => None
      case Some(b) => match Find(target, key) case None => None case Some(v) => Some(ReorderLike(b, v))
  {
    if base != [] {
      SharedFind(base[1..], target, key);
      var rest := Shared(base[1..], target);
      if Find(target, base[0].key).Some? {
        var head := Field(base[0].key, ReorderLike(base[0].value, Find(target, base[0].key).value));
        assert Shared(base, target) == [head] + rest;
        assert ([head] + rest)[1..] == rest;
      }
    }
  }

  lemma {:induction false} ExtrasFind(target: seq<Field>, written: seq<Field>, key: string)
    ensures Find(Extras(target, written), key) == if HasKey(written, key) then None else Find(target, key)
  {
    if target != [] {
      ExtrasFind(target[1..], written, key);
      var rest := Extras(target[1..], written);
      if !HasKey(written, target[0].key) {
        assert Extras(target, written) == [target[0]] + rest;
        assert ([target[0]] + rest)[1..] == rest;
      } else {
        assert [] + rest == rest;
      }
    }
  }

  /** Field by field: what the base knows is reordered below it, what it does not know is kept. */
  lemma ReorderField(base: seq<Field>, target: seq<Field>, key: string)
    ensures var r := ReorderLike(Obj(base), Obj(target)).fields;
      Find(r, key) ==
        match Find(target, key)
        case None => None
        case Some(v) => match Find(base, key) case None => Some(v) case Some(b) => Some(ReorderLike(b, v))
  {
    var shared := Shared(base, target);
    SharedFind(base, target, key);
    ExtrasFind(target, shared, key);
    FindConcat(shared, Extras(target, shared), key);
  }

  /** Where the base is no object, or the target none, the target stays as it is. */
  lemma ReorderRest(base: Node, target: Node)
    requires !base.Obj? || !target.Obj?
    ensures ReorderLike(base, target) == target
  {
  }

  /** What a reader finds at a path: a string, an array, or an object to go on into. */
  datatype Seen = SeenText(text: string) | SeenItems(items: seq<Node>) | SeenObject

  function At(node: Node, path: seq<string>): Option<Seen>
    decreases |path|
  {
    if path == [] then
      Some(match node case Str(t) => SeenText(t) case Arr(items) => SeenItems(items) case Obj(_) => SeenObject)
    else if !node.Obj? then None
    else match Find(node.fields, path[0]) case None => None case Some(v) => At(v, path[1..])
  }

  /** Reordering never drops, adds or changes a value, at any path. */
  lemma {:induction false} ReorderKeepsPaths(base: Node, target: Node, path: seq<string>)
    ensures At(ReorderLike(base, target), path) == At(target, path)
    decreases |path|
  {
    if path != [] && base.Obj? && target.Obj? {
      var key := path[0];
      ReorderField(base.fields, target.fields, key);
      if Find(target.fields, key).Some? && Find(base.fields, key).Some? {
        ReorderKeepsPaths(Find(base.fields, key).value, Find(target.fields, key).value, path[1..]);
      }
    }
  }

  function KeysOf(fields: seq<Field>): (r: seq<string>)
    ensures |r| == |fields| && forall i :: 0 <= i < |fields| ==> r[i] == fields[i].key
  {
    seq(|fields|, i requires 0 <= i < |fields| => fields[i].key)
  }

  function Among(keys: seq<string>, fields: seq<Field>, wanted: bool): seq<string> {
    if keys == [] then []
    else (if HasKey(fields, keys[0]) == wanted then [keys[0]] else []) + Among(keys[1..], fields, wanted)
  }

  lemma {:induction false} SharedKeys(base: seq<Field>, target: seq<Field>)
    ensures KeysOf(Shared(base, target)) == Among(KeysOf(base), target, true)
  {
    if base != [] {
      SharedKeys(base[1..], target);
      assert KeysOf(base)[1..] == KeysOf(base[1..]);
    }
  }

  lemma {:induction false} ExtrasKeys(target: seq<Field>, written: seq<Field>)
    ensures KeysOf(Extras(target, written)) == Among(KeysOf(target), written, false)
  {
    if target != [] {
      ExtrasKeys(target[1..], written);
      assert KeysOf(target)[1..] == KeysOf(target[1..]);
    }
  }

  lemma {:induction false} AmongWritten(keys: seq<string>, target: seq<Field>, base: seq<Field>, written: seq<Field>)
    requires forall i :: 0 <= i < |keys| ==> HasKey(target, keys[i])
    requires forall key :: HasKey(target, key) ==> (HasKey(written, key) <==> HasKey(base, key))
    ensures Among(keys, written, false) == Among(keys, base, false)
  {
    if keys != [] { AmongWritten(keys[1..], target, base, written); }
  }

  lemma KeysConcat(a: seq<Field>, b: seq<Field>)
    ensures KeysOf(a + b) == KeysOf(a) + KeysOf(b)
  {
  }

  lemma SharedHasKey(base: seq<Field>, target: seq<Field>, key: string)
    requires HasKey(target, key)
    ensures HasKey(Shared(base, target), key) <==> HasKey(base, key)
  {
    hide Find, HasKey, Shared;
    SharedFind(base, target, key);
  }

  /** Shared keys come in the base's order, then the extras in their own. */
  lemma ReorderKeyOrder(base: seq<Field>, target: seq<Field>)
    ensures KeysOf(ReorderLike(Obj(base), Obj(target)).fields) ==
      Among(KeysOf(base), target, true) + Among(KeysOf(target), base, false)
  {
    var shared := Shared(base, target);
    assert ReorderLike(Obj(base), Obj(target)).fields == shared + Extras(target, shared);
    forall i | 0 <= i < |KeysOf(target)| ensures HasKey(target, KeysOf(target)[i]) {}
    hide *;
    SharedKeys(base, target);
    ExtrasKeys(target, shared);
    KeysConcat(shared, Extras(target, shared));
    forall key | HasKey(target, key) ensures HasKey(shared, key) <==> HasKey(base, key) {
      SharedHasKey(base, target, key);
    }
    AmongWritten(KeysOf(target), target, base, shared);
  }

  lemma {:induction false} SharedAgain(base: seq<Field>, all: seq<Field>, target: seq<Field>, r: seq<Field>)
    requires forall i :: 0 <= i < |base| ==> Find(all, base[i].key) == Some(base[i].value)
    requires r == ReorderLike(Obj(all), Obj(target)).fields
    requires forall i :: 0 <= i < |base| ==> forall v: Node ::
      ReorderLike(base[i].value, ReorderLike(base[i].value, v)) == ReorderLike(base[i].value, v)
    ensures Shared(base, r) == Shared(base, target)
  {
    if base != [] {
      SharedAgain(base[1..], all, target, r);
      ReorderField(all, target, base[0].key);
    }
  }

  lemma {:induction false} ExtrasAgain(extras: seq<Field>, written: seq<Field>)
    requires forall i :: 0 <= i < |extras| ==> !HasKey(written, extras[i].key)
    ensures Extras(extras, written) == extras
  {
    if extras != [] { ExtrasAgain(extras[1..], written); }
  }

  lemma {:induction false} ExtrasOfWritten(fields: seq<Field>, more: seq<Field>, written: seq<Field>)
    requires forall i :: 0 <= i < |fields| ==> HasKey(written, fields[i].key)
    ensures Extras(fields + more, written) == Extras(more, written)
  {
    if fields == [] {
      assert fields + more == more;
    } else {
      ExtrasOfWritten(fields[1..], more, written);
      assert (fields + more)[1..] == fields[1..] + more;
    }
  }

  lemma {:induction false} DistinctFind(fields: seq<Field>, i: nat)
    requires DistinctKeys(fields) && i < |fields|
    ensures Find(fields, fields[i].key) == Some(fields[i].value)
  {
    if i > 0 { DistinctFind(fields[1..], i - 1); }
  }

  lemma {:induction false} ExtrasNew(target: seq<Field>, written: seq<Field>)
    ensures forall i :: 0 <= i < |Extras(target, written)| ==> !HasKey(written, Extras(target, written)[i].key)
  {
    if target != [] { ExtrasNew(target[1..], written); }
  }

  /** Formatting a formatted file changes nothing. */
  lemma {:induction false} ReorderIdempotent(base: Node, target: Node)
    requires WellFormed(base)
    ensures ReorderLike(base, ReorderLike(base, target)) == ReorderLike(base, target)
    decreases base
  {
    if base.Obj? && target.Obj? {
      var b, t := base.fields, target.fields;
      var shared := Shared(b, t);
      var extras := Extras(t, shared);
      var r := shared + extras;
      forall i | 0 <= i < |b| ensures Find(b, b[i].key) == Some(b[i].value) { DistinctFind(b, i); }
      forall i, v: Node | 0 <= i < |b|
        ensures ReorderLike(b[i].value, ReorderLike(b[i].value, v)) == ReorderLike(b[i].value, v)
      {
        ReorderIdempotent(b[i].value, v);
      }
      SharedAgain(b, b, t, r);
      ExtrasNew(t, shared);
      forall i | 0 <= i < |shared| ensures HasKey(shared, shared[i].key) {}
      ExtrasOfWritten(shared, extras, shared);
      ExtrasAgain(extras, shared);
    }
  }

  // ---------------------------------------------------------------- stripping blanks

  predicate Blank(s: string) {
    Trim(s) == ""
  }

  /** A blank string is nothing but white space. */
  lemma BlankIff(s: string)
    ensures Blank(s) <==> Spaces(s)
  {
    hide IsSpace;
    var before, after := TrimParts(s);
    if Spaces(s) { TrimSpaces(s); }
    if Blank(s) { assert s == before + after; }
  }

  function StripEmpty(node: Node): Node
    decreases node, 1
  {
    if node.Obj? then Obj(StripFields(node.fields)) else node
  }

  function StripFields(fields: seq<Field>): seq<Field>
    decreases fields, 0
  {
    if fields == [] then []
    else
      var f := fields[0];
      var child := StripEmpty(f.value);
      (if Keeps(f.value, child) then [Field(f.key, child)] else []) + StripFields(fields[1..])
  }

  /** A string is kept unless blank; anything else unless it strips to an empty object. */
  predicate Keeps(value: Node, child: Node) {
    if value.Str? then !Blank(value.text) else child != Obj([])
  }

  lemma {:induction false} StripFind(fields: seq<Field>, key: string)
    requires DistinctKeys(fields)
    ensures Find(StripFields(fields), key) ==
      match Find(fields, key)
      case None => None
      case Some(v) => if Keeps(v, StripEmpty(v)) then Some(StripEmpty(v)) else None
  {
    if fields != [] {
      var f := fields[0];
      StripFind(fields[1..], key);
      var rest := StripFields(fields[1..]);
      if Keeps(f.value, StripEmpty(f.value)) {
        var head := Field(f.key, StripEmpty(f.value));
        assert StripFields(fields) == [head] + rest && ([head] + rest)[1..] == rest;
      } else {
        assert [] + rest == rest;
        if f.key == key { NotLater(fields, key); }
      }
    }
  }

  lemma NotLater(fields: seq<Field>, key: string)
    requires fields != [] && DistinctKeys(fields) && fields[0].key == key
    ensures Find(fields[1..], key) == None
  {
  }

  /** The string at a path, if there is one. */
  function TextAt(node: Node, path: seq<string>): Option<string> {
    match At(node, path) case Some(SeenText(t)) => Some(t) case _ => None
  }

  /** What stripping may do to what is seen at a path. */
  predicate StripsTo(before: Option<Seen>, after: Option<Seen>) {
    match before
    case None => after == None
    case Some(SeenText(t)) => after == if Blank(t) then None else before
    case Some(SeenItems(_)) => after == before
    case Some(SeenObject) => after == None || after == before
  }

  lemma StripRoot(v: Node)
    ensures StripsTo(At(v, []), if Keeps(v, StripEmpty(v)) then At(StripEmpty(v), []) else None)
  {
  }

  lemma StripStep(node: Node, path: seq<string>, v: Node)
    requires WellFormed(node) && node.Obj? && path != [] && Find(node.fields, path[0]) == Some(v)
    ensures WellFormed(v)
    ensures At(node, path) == At(v, path[1..])
    ensures At(StripEmpty(node), path) == if Keeps(v, StripEmpty(v)) then At(StripEmpty(v), path[1..]) else None
  {
    hide Keeps;
    StripFind(node.fields, path[0]);
    var i :| 0 <= i < |node.fields| && node.fields[i] == Field(path[0], v);
  }

  /** Below the root, stripping removes the blank strings and objects left empty, and nothing else. */
  lemma {:induction false} StripAt(node: Node, path: seq<string>)
    requires WellFormed(node) && path != []
    ensures StripsTo(At(node, path), At(StripEmpty(node), path))
    decreases |path|
  {
    if node.Obj? {
      StripFind(node.fields, path[0]);
      match Find(node.fields, path[0]) {
        case None =>
        case Some(v) =>
          StripStep(node, path, v);
          if path[1..] == [] {
            StripRoot(v);
          } else {
            StripAt(v, path[1..]);
            NothingIn(path[1..]);
          }
      }
    }
  }

  lemma NothingIn(path: seq<string>)
    requires path != []
    ensures At(Obj([]), path) == None
  {
  }

  /** An object below the root survives stripping exactly when a string or an array does below it. */
  lemma {:induction false} ObjectSurvivesIff(fields: seq<Field>)
    ensures StripFields(fields) != [] <==> exists i :: 0 <= i < |fields| && Survives(fields[i].value)
    decreases fields
  {
    StripToNothing(fields);
    forall i | 0 <= i < |fields| ensures Keeps(fields[i].value, StripEmpty(fields[i].value)) <==> Survives(fields[i].value) {
      var v := fields[i].value;
      if v.Obj? { ObjectSurvivesIff(v.fields); }
    }
  }

  /** A subtree that holds a non-blank string or an array. */
  predicate Survives(node: Node) {
    match node
    case Str(t) => !Blank(t)
    case Arr(_) => true
    case Obj(fields) => exists i :: 0 <= i < |fields| && Survives(fields[i].value)
  }

  /** What the interface shows at a path: the pack's string, or else the English one. */
  function ShownText(pack: Node, english: Node, path: seq<string>): Option<string> {
    match TextAt(pack, path) case Some(t) => Some(t) case None => TextAt(english, path)
  }

  /** The same, with the pack's blank strings counted as missing. */
  function ShownSkippingBlanks(pack: Node, english: Node, path: seq<string>): Option<string> {
    match TextAt(pack, path) case Some(t) => if Blank(t) then TextAt(english, path) else Some(t) case None => TextAt(english, path)
  }

  /** A stripped pack shows, at every path, what the full pack shows when blanks fall back. */
  lemma StripKeepsShown(pack: Node, english: Node, path: seq<string>)
    requires WellFormed(pack) && path != []
    ensures ShownText(StripEmpty(pack), english, path) == ShownSkippingBlanks(pack, english, path)
  {
    StripAt(pack, path);
  }

  lemma {:induction false} StripIdempotent(node: Node)
    ensures StripEmpty(StripEmpty(node)) == StripEmpty(node)
    decreases node, 1
  {
    if node.Obj? { StripFieldsIdempotent(node.fields); }
  }

  lemma {:induction false} StripFieldsIdempotent(fields: seq<Field>)
    ensures StripFields(StripFields(fields)) == StripFields(fields)
    decreases fields, 0
  {
    if fields != [] {
      var f, rest := fields[0], StripFields(fields[1..]);
      StripIdempotent(f.value);
      StripFieldsIdempotent(fields[1..]);
      if Keeps(f.value, StripEmpty(f.value)) {
        var head := Field(f.key, StripEmpty(f.value));
        assert StripFields(fields) == [head] + rest && ([head] + rest)[1..] == rest;
      } else {
        assert [] + rest == rest;
      }
    }
  }

  lemma {:induction false} StripKeysAmong(fields: seq<Field>, all: seq<Field>)
    requires forall i :: 0 <= i < |fields| ==> (HasKey(all, fields[i].key) <==> Keeps(fields[i].value, StripEmpty(fields[i].value)))
    ensures KeysOf(StripFields(fields)) == Among(KeysOf(fields), all, true)
  {
    if fields != [] {
      var f, rest := fields[0], StripFields(fields[1..]);
      hide HasKey, Keeps, StripEmpty;
      StripKeysAmong(fields[1..], all);
      assert KeysOf(fields)[1..] == KeysOf(fields[1..]);
      if Keeps(f.value, StripEmpty(f.value)) {
        assert StripFields(fields) == [Field(f.key, StripEmpty(f.value))] + rest;
        assert KeysOf(StripFields(fields)) == [f.key] + KeysOf(rest);
      } else {
        assert StripFields(fields) == rest;
      }
    }
  }

  /** What is left keeps its order: the surviving keys, as the pack lists them. */
  lemma StripKeyOrder(fields: seq<Field>)
    requires DistinctKeys(fields)
    ensures KeysOf(StripFields(fields)) == Among(KeysOf(fields), StripFields(fields), true)
  {
    hide StripFields, Keeps, HasKey;
    forall i | 0 <= i < |fields|
      ensures HasKey(StripFields(fields), fields[i].key) <==> Keeps(fields[i].value, StripEmpty(fields[i].value))
    {
      DistinctFind(fields, i);
      StripFind(fields, fields[i].key);
    }
    StripKeysAmong(fields, StripFields(fields));
  }

  // ---------------------------------------------------------------- skeletons

  function Skeletonize(node: Node, filler: string): Node
    decreases node
  {
    match node
    case Str(_) => Str(filler)
    case Arr(items) => Arr(seq(|items|, i requires 0 <= i < |items| => Skeletonize(items[i], filler)))
    case Obj(fields) => Obj(seq(|fields|, i requires 0 <= i < |fields| => Field(fields[i].key, Skeletonize(fields[i].value, filler))))
  }

  /** The same tree, key by key and item by item in order, with the filler for every string. */
  predicate Filled(node: Node, s: Node, filler: string) {
    match node
    case Str(_) => s == Str(filler)
    case Arr(items) => s.Arr? && |s.items| == |items| && forall i :: 0 <= i < |items| ==> Filled(items[i], s.items[i], filler)
    case Obj(fields) => s.Obj? && |s.fields| == |fields| && forall i :: 0 <= i < |fields| ==>
      s.fields[i].key == fields[i].key && Filled(fields[i].value, s.fields[i].value, filler)
  }

  /** A skeleton is the English tree itself, order and arrays included, with every string replaced. */
  lemma {:induction false} SkeletonIsFilled(node: Node, filler: string)
    ensures Filled(node, Skeletonize(node, filler), filler)
    decreases node
  {
    match node
    case Str(_) =>
    case Arr(items) => forall i | 0 <= i < |items| ensures Filled(items[i], Skeletonize(items[i], filler), filler) { SkeletonIsFilled(items[i], filler); }
    case Obj(fields) =>
      forall i | 0 <= i < |fields| ensures Filled(fields[i].value, Skeletonize(fields[i].value, filler), filler) {
        SkeletonIsFilled(fields[i].value, filler);
      }
  }

  /** No array anywhere below objects. */
  predicate ArrayFree(node: Node) {
    match node
    case Str(_) => true
    case Arr(_) => false
    case Obj(fields) => forall i :: 0 <= i < |fields| ==> ArrayFree(fields[i].value)
  }

  lemma {:induction false} StripToNothing(fields: seq<Field>)
    ensures StripFields(fields) == [] <==> forall i :: 0 <= i < |fields| ==> !Keeps(fields[i].value, StripEmpty(fields[i].value))
  {
    if fields != [] {
      StripToNothing(fields[1..]);
      assert forall i :: 0 < i < |fields| ==> fields[i] == fields[1..][i - 1];
    }
  }

  /** A skeleton with a blank filler ships nothing exactly when the English tree has no array. */
  lemma {:induction false} SkeletonShipsNothing(node: Node, filler: string)
    requires Blank(filler) && node.Obj?
    ensures StripEmpty(Skeletonize(node, filler)) == Obj([]) <==> ArrayFree(node)
    decreases node
  {
    var s := Skeletonize(node, filler);
    StripToNothing(s.fields);
    forall i | 0 <= i < |node.fields|
      ensures !Keeps(s.fields[i].value, StripEmpty(s.fields[i].value)) <==> ArrayFree(node.fields[i].value)
    {
      var v := node.fields[i].value;
      assert s.fields[i].value == Skeletonize(v, filler);
      if v.Obj? { SkeletonShipsNothing(v, filler); }
    }
  }

  /** A skeleton has the keys of the English tree, in order, at every path. */
  lemma {:induction false} SkeletonAt(node: Node, filler: string, path: seq<string>)
    ensures At(Skeletonize(node, filler), path).Some? <==> At(node, path).Some?
    ensures TextAt(Skeletonize(node, filler), path) == if TextAt(node, path).Some? then Some(filler) else None
    decreases |path|
  {
    if path != [] && node.Obj? {
      SkeletonFind(node.fields, filler, path[0]);
      if Find(node.fields, path[0]).Some? { SkeletonAt(Find(node.fields, path[0]).value, filler, path[1..]); }
    }
  }

  lemma {:induction false} SkeletonFind(fields: seq<Field>, filler: string, key: string)
    ensures Find(Skeletonize(Obj(fields), filler).fields, key) ==
      match Find(fields, key) case None => None case Some(v) => Some(Skeletonize(v, filler))
  {
    if fields != [] {
      SkeletonFind(fields[1..], filler, key);
      assert Skeletonize(Obj(fields), filler).fields[1..] == Skeletonize(Obj(fields[1..]), filler).fields;
    }
  }
}
