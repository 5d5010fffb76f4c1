/** The catalog's filter expressions: JSON objects merged key by key, with limits on depth, fields and
    array items. */
module FilterMerge {
  import opened Wrappers

  type Path = seq<string>

  /** An atom is a boolean, a number or a string. */
  datatype Json =
    | Null
    | Atom(id: nat)
    | Arr(items: seq<Json>)
    | Obj(fields: map<string, Json>)

  const MAX_DEPTH: nat := 8
  const MAX_FIELDS: nat := 64
  const MAX_ITEMS: nat := 128
  const MAX_INPUTS: nat := 32
  const MAX_TEXT: nat := 8192

  // What a new key starts from.
  function Blank(value: Json): Json {
    if value.Obj? then Obj(map[]) else if value.Arr? then Arr([]) else Null
  }

  function Field(target: Json, key: string, value: Json): Json {
    if target.Obj? && key in target.fields then target.fields[key] else Blank(value)
  }

  /** The merge as a function: None when a limit is exceeded. */
  function Merge(target: Json, source: Json, depth: nat): Option<Json>
    requires depth <= MAX_DEPTH + 1
    decreases MAX_DEPTH + 1 - depth
  {
    if depth > MAX_DEPTH then None
    else if target.Obj? && source.Obj? then
      if |source.fields| > MAX_FIELDS then None
      else if exists k :: k in source.fields && MergeField(target, source, k, depth).None? then None
      else Some(Obj(target.fields + map k | k in source.fields :: MergeField(target, source, k, depth).value))
    else if target.Arr? && source.Arr? then
      if |target.items| + |source.items| > MAX_ITEMS then None else Some(Arr(target.items + source.items))
    else Some(source)
  }

  function MergeField(target: Json, source: Json, key: string, depth: nat): Option<Json>
    requires depth <= MAX_DEPTH && source.Obj? && key in source.fields
    decreases MAX_DEPTH + 1 - depth, 0
  {
    Merge(Field(target, key, source.fields[key]), source.fields[key], depth + 1)
  }

  // The fields of the target once every source field outside `left` was merged into them.
  ghost predicate PartlyMerged(
    target: Json, source: Json, depth: nat, fields: map<string, Json>, left: set<string>)
    requires depth <= MAX_DEPTH && target.Obj? && source.Obj?
  {
    && fields.Keys == target.fields.Keys + (source.fields.Keys - left)
    && (forall k :: k in source.fields && k !in left ==>
          k in fields && MergeField(target, source, k, depth) == Some(fields[k]))
    && (forall k :: k in target.fields && (k !in source.fields || k in left) ==>
          k in fields && fields[k] == target.fields[k])
  }

  lemma FullyMerged(target: Json, source: Json, depth: nat, fields: map<string, Json>)
    requires depth <= MAX_DEPTH && target.Obj? && source.Obj? && |source.fields| <= MAX_FIELDS
    requires PartlyMerged(target, source, depth, fields, {})
    ensures Merge(target, source, depth) == Some(Obj(fields))
  {
    hide MergeField;
    assert fields == target.fields + map k | k in source.fields :: MergeField(target, source, k, depth).value;
  }

  lemma FailedField(target: Json, source: Json, depth: nat, key: string)
    requires depth <= MAX_DEPTH && target.Obj? && source.Obj? && key in source.fields
    requires MergeField(target, source, key, depth).None?
    ensures Merge(target, source, depth) == None
  {
    hide MergeField;
  }

  lemma OneMoreField(
    target: Json, source: Json, depth: nat, fields: map<string, Json>, left: set<string>, key: string, next: Json)
    requires depth <= MAX_DEPTH && target.Obj? && source.Obj? && left <= source.fields.Keys && key in left
    requires PartlyMerged(target, source, depth, fields, left)
    requires MergeField(target, source, key, depth) == Some(next)
    ensures PartlyMerged(target, source, depth, fields[key := next], left - {key})
  {
    hide MergeField;
  }

  lemma NothingMerged(target: Json, source: Json, depth: nat)
    requires depth <= MAX_DEPTH && target.Obj? && source.Obj?
    ensures PartlyMerged(target, source, depth, target.fields, source.fields.Keys)
  {
    hide MergeField;
  }

  lemma NextField(
    target: Json, source: Json, depth: nat, fields: map<string, Json>, left: set<string>, key: string)
    requires depth <= MAX_DEPTH && target.Obj? && source.Obj? && left <= source.fields.Keys && key in left
    requires PartlyMerged(target, source, depth, fields, left)
    ensures
      var value := source.fields[key];
      (if key in fields then fields[key] else Blank(value)) == Field(target, key, value)
  {
    hide MergeField;
  }

  /** `merge`: the target edited in place is the value handed back. */
  method MergeInto(target: Json, source: Json, depth: nat) returns (merged: Option<Json>)
    requires depth <= MAX_DEPTH + 1
    ensures merged == Merge(target, source, depth)
    decreases MAX_DEPTH + 1 - depth, 1
  {
    if depth > MAX_DEPTH {
      return None;
    }
    if target.Obj? && source.Obj? {
      if |source.fields| > MAX_FIELDS {
        return None;
      }
      merged := MergeFields(target, source, depth);
      return;
    }
    if target.Arr? && source.Arr? {
      if |target.items| + |source.items| > MAX_ITEMS {
        return None;
      }
      return Some(Arr(target.items + source.items));
    }
    return Some(source);
  }

  /** The loop over the source's fields, in whatever order they come. */
  method MergeFields(target: Json, source: Json, depth: nat) returns (merged: Option<Json>)
    requires depth <= MAX_DEPTH && target.Obj? && source.Obj? && |source.fields| <= MAX_FIELDS
    ensures merged == Merge(target, source, depth)
    decreases MAX_DEPTH + 1 - depth, 0
  {
    hide Merge, PartlyMerged;
    var fields := target.fields;
    var left := source.fields.Keys;
    NothingMerged(target, source, depth);
    while left != {}
      invariant left <= source.fields.Keys
      invariant PartlyMerged(target, source, depth, fields, left)
      decreases left
    {
      var key :| key in left;
      var value := source.fields[key];
      var field := if key in fields then fields[key] else Blank(value);
      NextField(target, source, depth, fields, left, key);
      var next := MergeInto(field, value, depth + 1);
      if next.None? {
        FailedField(target, source, depth, key);
        return None;
      }
      OneMoreField(target, source, depth, fields, left, key, next.value);
      fields := fields[key := next.value];
      left := left - {key};
    }
    FullyMerged(target, source, depth, fields);
    return Some(Obj(fields));
  }

  // ---- What a value is at a path ----

  /** A value's own level: an object's keys, an array's items, or a scalar. */
  datatype Shape = Fields(keys: set<string>) | Items(items: seq<Json>) | Scalar(value: Json)

  function ShapeOf(j: Json): Shape {
    if j.Obj? then Fields(j.fields.Keys) else if j.Arr? then Items(j.items) else Scalar(j)
  }

  function ShapeAt(j: Json, path: Path): Option<Shape>
    decreases |path|
  {
    if path == [] then Some(ShapeOf(j))
    else if j.Obj? && path[0] in j.fields then ShapeAt(j.fields[path[0]], path[1..])
    else None
  }

  predicate SameKind(a: Shape, b: Shape) {
    (a.Fields? && b.Fields?) || (a.Items? && b.Items?) || (a.Scalar? && b.Scalar?)
  }

  // Union of keys, concatenation of items, the last scalar.
  function Join(a: Option<Shape>, b: Option<Shape>): Option<Shape> {
    match (a, b)
    case (None, _) => b
    case (_, None) => a
    case (Some(Fields(x)), Some(Fields(y))) => Some(Fields(x + y))
    case (Some(Items(x)), Some(Items(y))) => Some(Items(x + y))
    case _ => b
  }

  // On the way to `path`, both sides have a value of different kinds, so the source replaced the target.
  predicate Overridden(target: Json, source: Json, path: Path)
    decreases |path|
  {
    || !SameKind(ShapeOf(target), ShapeOf(source))
    || (path != [] && target.Obj? && path[0] in target.fields && path[0] in source.fields
        && Overridden(target.fields[path[0]], source.fields[path[0]], path[1..]))
  }

  lemma BlankIsUnit(value: Json, path: Path)
    ensures Join(ShapeAt(Blank(value), path), ShapeAt(value, path)) == ShapeAt(value, path)
    ensures !Overridden(Blank(value), value, path)
  {
    if path == [] {
      if value.Obj? {
        assert Blank(value).fields.Keys + value.fields.Keys == value.fields.Keys;
      } else if value.Arr? {
        assert [] + value.items == value.items;
      }
    }
  }

  // ---- Path semantics of one merge ----

  lemma MergedFields(target: Json, source: Json, depth: nat)
    requires depth <= MAX_DEPTH && target.Obj? && source.Obj? && Merge(target, source, depth).Some?
    ensures
      var merged := Merge(target, source, depth).value;
      && merged.Obj? && merged.fields.Keys == target.fields.Keys + source.fields.Keys
      && (forall k :: k in source.fields ==>
            MergeField(target, source, k, depth).Some?
            && merged.fields[k] == MergeField(target, source, k, depth).value)
      && (forall k :: k in target.fields && k !in source.fields ==> merged.fields[k] == target.fields[k])
  {
    hide MergeField;
  }

  lemma MergedFlat(target: Json, source: Json, depth: nat)
    requires depth <= MAX_DEPTH + 1 && Merge(target, source, depth).Some? && !(target.Obj? && source.Obj?)
    ensures
      Merge(target, source, depth).value
      == if target.Arr? && source.Arr? then Arr(target.items + source.items) else source
  {
  }

  ghost predicate HasPathSemantics(target: Json, source: Json, merged: Json, path: Path) {
    ShapeAt(merged, path)
    == if Overridden(target, source, path) then ShapeAt(source, path)
       else Join(ShapeAt(target, path), ShapeAt(source, path))
  }

  lemma FlatSemantics(target: Json, source: Json, merged: Json, path: Path)
    requires !(target.Obj? && source.Obj?)
    requires merged == if target.Arr? && source.Arr? then Arr(target.items + source.items) else source
    ensures HasPathSemantics(target, source, merged, path)
  {
  }

  lemma FieldSemantics(target: Json, source: Json, merged: Json, path: Path)
    requires target.Obj? && source.Obj? && merged.Obj? && path != [] && path[0] in merged.fields
    requires merged.fields.Keys == target.fields.Keys + source.fields.Keys
    requires path[0] !in source.fields ==> merged.fields[path[0]] == target.fields[path[0]]
    requires path[0] in source.fields ==>
      var value := source.fields[path[0]];
      HasPathSemantics(Field(target, path[0], value), value, merged.fields[path[0]], path[1..])
    ensures HasPathSemantics(target, source, merged, path)
  {
    if path[0] in source.fields {
      BlankIsUnit(source.fields[path[0]], path[1..]);
    }
    hide Join;
  }

  /** Whatever the inputs: where the source replaced the target the result is the source's, and
      everywhere else it joins both. */
  lemma {:induction false} MergeHasPathSemantics(target: Json, source: Json, depth: nat, path: Path)
    requires depth <= MAX_DEPTH + 1 && Merge(target, source, depth).Some?
    ensures HasPathSemantics(target, source, Merge(target, source, depth).value, path)
    decreases |path|
  {
    hide Merge, HasPathSemantics;
    var merged := Merge(target, source, depth).value;
    if !(target.Obj? && source.Obj?) {
      MergedFlat(target, source, depth);
      FlatSemantics(target, source, merged, path);
    } else {
      DepthIsBounded(target, source, depth);
      MergedFields(target, source, depth);
      if path == [] {
        RootSemantics(target, source, merged);
      } else if path[0] in source.fields {
        var value := source.fields[path[0]];
        MergeHasPathSemantics(Field(target, path[0], value), value, depth + 1, path[1..]);
        FieldSemantics(target, source, merged, path);
      } else if path[0] in target.fields {
        FieldSemantics(target, source, merged, path);
      } else {
        AbsentSemantics(target, source, merged, path);
      }
    }
  }

  lemma DepthIsBounded(target: Json, source: Json, depth: nat)
    requires depth <= MAX_DEPTH + 1 && Merge(target, source, depth).Some?
    ensures depth <= MAX_DEPTH
  {
  }

  lemma RootSemantics(target: Json, source: Json, merged: Json)
    requires target.Obj? && source.Obj? && merged.Obj?
    requires merged.fields.Keys == target.fields.Keys + source.fields.Keys
    ensures HasPathSemantics(target, source, merged, [])
  {
  }

  lemma AbsentSemantics(target: Json, source: Json, merged: Json, path: Path)
    requires target.Obj? && source.Obj? && merged.Obj? && path != []
    requires path[0] !in target.fields && path[0] !in source.fields && path[0] !in merged.fields
    ensures HasPathSemantics(target, source, merged, path)
  {
  }

  // ---- When a merge succeeds ----

  // `path` leads to a value of the source that the merge compares with the target's.
  predicate Visited(target: Json, source: Json, path: Path) {
    && ShapeAt(source, path).Some?
    && (path != [] ==> !Overridden(target, source, path[..|path| - 1]))
  }

  function ItemCount(shape: Option<Shape>): nat {
    if shape.Some? && shape.value.Items? then |shape.value.items| else 0
  }

  predicate WithinSize(shape: Shape, already: nat) {
    match shape
    case Fields(keys) => |keys| <= 64
    case Items(items) => already + |items| <= 128
    case Scalar(_) => true
  }

  // The limits, checked where values are compared; sizes only where the kinds agree.
  predicate WithinLimits(target: Json, source: Json, depth: nat, path: Path) {
    Visited(target, source, path) ==>
      && depth + |path| <= 8
      && (!Overridden(target, source, path) ==>
            WithinSize(ShapeAt(source, path).value, ItemCount(ShapeAt(target, path))))
  }

  lemma LimitsOfField(target: Json, source: Json, depth: nat, key: string, rest: Path)
    requires target.Obj? && source.Obj? && key in source.fields
    ensures
      var value := source.fields[key];
      WithinLimits(target, source, depth, [key] + rest)
      == WithinLimits(Field(target, key, value), value, depth + 1, rest)
  {
    var path := [key] + rest;
    var value := source.fields[key];
    assert path[1..] == rest;
    BlankIsUnit(value, rest);
    if rest != [] {
      var front := rest[..|rest| - 1];
      assert path[..|path| - 1] == [key] + front && ([key] + front)[1..] == front;
      BlankIsUnit(value, front);
    } else {
      assert path[..|path| - 1] == [];
    }
  }

  ghost predicate AllWithinLimits(target: Json, source: Json, depth: nat) {
    forall path :: WithinLimits(target, source, depth, path)
  }

  lemma LimitsOfFlat(target: Json, source: Json, depth: nat)
    requires !(target.Obj? && source.Obj?) && depth <= MAX_DEPTH
    ensures
      AllWithinLimits(target, source, depth)
      <==> (target.Arr? && source.Arr? ==> |target.items| + |source.items| <= MAX_ITEMS)
  {
    assert WithinLimits(target, source, depth, [])
      <==> (target.Arr? && source.Arr? ==> |target.items| + |source.items| <= MAX_ITEMS);
    forall path: Path | path != []
      ensures WithinLimits(target, source, depth, path)
    {
      if source.Obj? {
        assert Overridden(target, source, path[..|path| - 1]);
      }
    }
  }

  lemma LimitsOfFields(target: Json, source: Json, depth: nat)
    requires target.Obj? && source.Obj? && depth <= MAX_DEPTH
    ensures
      AllWithinLimits(target, source, depth)
      <==> |source.fields| <= MAX_FIELDS && forall k :: k in source.fields ==>
             AllWithinLimits(Field(target, k, source.fields[k]), source.fields[k], depth + 1)
  {
    assert WithinLimits(target, source, depth, []) <==> |source.fields| <= MAX_FIELDS;
    if AllWithinLimits(target, source, depth) {
      var next := depth + 1;
      forall k | k in source.fields
        ensures AllWithinLimits(Field(target, k, source.fields[k]), source.fields[k], next)
      {
        forall rest
          ensures WithinLimits(Field(target, k, source.fields[k]), source.fields[k], next, rest)
        {
          assert WithinLimits(target, source, depth, [k] + rest);
          LimitsOfField(target, source, depth, k, rest);
        }
      }
    } else {
      var path :| !WithinLimits(target, source, depth, path);
      if path != [] {
        assert path == [path[0]] + path[1..];
        LimitsOfField(target, source, depth, path[0], path[1..]);
      }
    }
  }

  lemma SucceedsByFields(target: Json, source: Json, depth: nat)
    requires target.Obj? && source.Obj? && depth <= MAX_DEPTH
    ensures
      Merge(target, source, depth).Some?
      <==> |source.fields| <= MAX_FIELDS
           && forall k :: k in source.fields ==> MergeField(target, source, k, depth).Some?
  {
    hide MergeField;
  }

  lemma TooDeepFails(target: Json, source: Json, depth: nat)
    requires depth == MAX_DEPTH + 1
    ensures Merge(target, source, depth).None? && !AllWithinLimits(target, source, depth)
  {
    assert !WithinLimits(target, source, depth, []);
  }

  lemma FlatSucceeds(target: Json, source: Json, depth: nat)
    requires depth <= MAX_DEPTH && !(target.Obj? && source.Obj?)
    ensures Merge(target, source, depth).Some? <==> AllWithinLimits(target, source, depth)
  {
    hide AllWithinLimits, WithinLimits;
    LimitsOfFlat(target, source, depth);
  }

  /** A merge succeeds exactly when, at every path where the two values are compared, the depth is at
      most 8 and, if the kinds agree, the source has at most 64 fields or the two at most 128 items. */
  lemma {:induction false} MergeSucceedsIffWithinLimits(target: Json, source: Json, depth: nat)
    requires depth <= MAX_DEPTH + 1
    ensures Merge(target, source, depth).Some? <==> AllWithinLimits(target, source, depth)
    decreases MAX_DEPTH + 1 - depth
  {
    hide Merge, WithinLimits, AllWithinLimits;
    if depth > MAX_DEPTH {
      TooDeepFails(target, source, depth);
    } else if !(target.Obj? && source.Obj?) {
      FlatSucceeds(target, source, depth);
    } else {
      SucceedsByFields(target, source, depth);
      LimitsOfFields(target, source, depth);
      forall k | k in source.fields
        ensures
          var value := source.fields[k];
          MergeField(target, source, k, depth).Some? <==> AllWithinLimits(Field(target, k, value), value, depth + 1)
      {
        MergeSucceedsIffWithinLimits(Field(target, k, source.fields[k]), source.fields[k], depth + 1);
      }
    }
  }

  // ---- Shapes determine the value ----

  /** Two values with the same shape at every path are equal. */
  lemma {:induction false} ShapesDetermineValue(a: Json, b: Json)
    requires forall path :: ShapeAt(a, path) == ShapeAt(b, path)
    ensures a == b
    decreases a
  {
    assert ShapeAt(a, []) == ShapeAt(b, []);
    if a.Obj? {
      forall k | k in a.fields
        ensures a.fields[k] == b.fields[k]
      {
        forall path
          ensures ShapeAt(a.fields[k], path) == ShapeAt(b.fields[k], path)
        {
          assert ([k] + path)[1..] == path;
          assert ShapeAt(a, [k] + path) == ShapeAt(b, [k] + path);
        }
        ShapesDetermineValue(a.fields[k], b.fields[k]);
      }
      assert a.fields == b.fields;
    }
  }

  /** Merging a value into a blank one changes nothing. */
  lemma MergeIntoBlank(value: Json, depth: nat)
    requires depth <= MAX_DEPTH + 1 && Merge(Blank(value), value, depth).Some?
    ensures Merge(Blank(value), value, depth).value == value
  {
    forall path
      ensures ShapeAt(Merge(Blank(value), value, depth).value, path) == ShapeAt(value, path)
    {
      MergeHasPathSemantics(Blank(value), value, depth, path);
      BlankIsUnit(value, path);
    }
    ShapesDetermineValue(Merge(Blank(value), value, depth).value, value);
  }

  // ---- The whole expression ----

  /** A filter entry: not a text at all, or a text of some length in bytes that parses or does not. */
  datatype Input = NotText | Text(bytes: nat, parsed: Option<Json>)

  predicate Acceptable(input: Input) {
    input.Text? && input.bytes <= MAX_TEXT && input.parsed.Some? && input.parsed.value.Obj?
  }

  // Merging objects one after the other into a value.
  function MergeAll(target: Json, sources: seq<Json>): Option<Json>
    decreases |sources|
  {
    if sources == [] then Some(target)
    else
      var next := Merge(target, sources[0], 0);
      if next.None? then None else MergeAll(next.value, sources[1..])
  }

  function Object(input: Input): Json {
    if Acceptable(input) then input.parsed.value else Null
  }

  function Parsed(inputs: seq<Input>): seq<Json> {
    seq(|inputs|, i requires 0 <= i < |inputs| => Object(inputs[i]))
  }

  function Expression(value: Option<seq<Input>>): Option<Json> {
    if value.None? || |value.value| > MAX_INPUTS then None
    else if exists i :: 0 <= i < |value.value| && !Acceptable(value.value[i]) then None
    else MergeAll(Obj(map[]), Parsed(value.value))
  }

  lemma {:induction false} MergeAllOfConcat(target: Json, a: seq<Json>, b: seq<Json>)
    ensures
      MergeAll(target, a + b)
      == if MergeAll(target, a).None? then None else MergeAll(MergeAll(target, a).value, b)
    decreases |a|
  {
    if a == [] {
      assert a + b == b;
    } else {
      assert (a + b)[1..] == a[1..] + b;
      var next := Merge(target, a[0], 0);
      if next.Some? {
        MergeAllOfConcat(next.value, a[1..], b);
      }
    }
  }

  lemma NextMerge(inputs: seq<Input>, i: nat)
    requires i < |inputs|
    ensures
      var so := MergeAll(Obj(map[]), Parsed(inputs[..i]));
      MergeAll(Obj(map[]), Parsed(inputs[..i + 1]))
      == if so.None? then None else Merge(so.value, Object(inputs[i]), 0)
  {
    hide Merge, Object;
    var next := Object(inputs[i]);
    assert Parsed(inputs[..i + 1]) == Parsed(inputs[..i]) + [next];
    MergeAllOfConcat(Obj(map[]), Parsed(inputs[..i]), [next]);
    assert [next][1..] == [];
  }

  /** `filter_expression`: any bad input, and any limit exceeded, fails the whole. At most 32 inputs are
      taken, each an object in a text of at most 8192 bytes, and the output is their fold into `{}`. */
  method FilterExpression(value: Option<seq<Input>>) returns (output: Option<Json>)
    ensures output == Expression(value)
    ensures output.Some? ==>
              && value.Some? && |value.value| <= 32
              && forall i | 0 <= i < |value.value| ::
                   value.value[i].Text? && value.value[i].bytes <= 8192
                   && value.value[i].parsed.Some? && value.value[i].parsed.value.Obj?
    ensures value.Some? && |value.value| <= 32
            && (forall i | 0 <= i < |value.value| ::
                  value.value[i].Text? && value.value[i].bytes <= 8192
                  && value.value[i].parsed.Some? && value.value[i].parsed.value.Obj?) ==>
              output == MergeAll(Obj(map[]), seq(|value.value|, i requires 0 <= i < |value.value| => value.value[i].parsed.value))
  {
    hide Merge;
    if value.Some? {
      ParsedObjects(value.value);
    }
    if value.None? || |value.value| > MAX_INPUTS {
      return None;
    }
    var inputs := value.value;
    var merged := Obj(map[]);
    var i := 0;
    while i < |inputs|
      invariant i <= |inputs|
      invariant forall j :: 0 <= j < i ==> Acceptable(inputs[j])
      invariant MergeAll(Obj(map[]), Parsed(inputs[..i])) == Some(merged)
    {
      if !Acceptable(inputs[i]) {
        return None;
      }
      NextMerge(inputs, i);
      var next := MergeInto(merged, Object(inputs[i]), 0);
      if next.None? {
        FailsForGood(inputs, i + 1);
        return None;
      }
      merged := next.value;
      i := i + 1;
    }
    assert inputs[..i] == inputs;
    return Some(merged);
  }

  lemma ParsedObjects(inputs: seq<Input>)
    ensures (forall i | 0 <= i < |inputs| ::
               inputs[i].Text? && inputs[i].bytes <= 8192 && inputs[i].parsed.Some? && inputs[i].parsed.value.Obj?) ==>
              Parsed(inputs) == seq(|inputs|, i requires 0 <= i < |inputs| => inputs[i].parsed.value)
  {
    if forall i | 0 <= i < |inputs| ::
         inputs[i].Text? && inputs[i].bytes <= 8192 && inputs[i].parsed.Some? && inputs[i].parsed.value.Obj?
    {
      assert Parsed(inputs) == seq(|inputs|, i requires 0 <= i < |inputs| => inputs[i].parsed.value);
    }
  }

  lemma FailsForGood(inputs: seq<Input>, n: nat)
    requires n <= |inputs|
    requires MergeAll(Obj(map[]), Parsed(inputs[..n])) == None && |inputs| <= MAX_INPUTS
    ensures Expression(Some(inputs)) == None
  {
    hide Merge, MergeAll, Object;
    assert Parsed(inputs) == Parsed(inputs[..n]) + Parsed(inputs[n..]);
    MergeAllOfConcat(Obj(map[]), Parsed(inputs[..n]), Parsed(inputs[n..]));
  }

  /** A fold succeeds exactly when every input is within the limits against what the inputs before it
      have come to. */
  lemma {:induction false} FoldSucceedsIffWithinLimits(target: Json, values: seq<Json>)
    ensures
      MergeAll(target, values).Some?
      <==> forall i: nat :: i < |values| ==>
             MergeAll(target, values[..i]).Some? && AllWithinLimits(MergeAll(target, values[..i]).value, values[i], 0)
    decreases |values|
  {
    hide Merge, AllWithinLimits;
    if values != [] {
      var n := |values| - 1;
      var before := values[..n];
      FoldSucceedsIffWithinLimits(target, before);
      assert values == before + [values[n]];
      MergeAllOfConcat(target, before, [values[n]]);
      forall i: nat | i < n
        ensures before[..i] == values[..i] && before[i] == values[i]
      {
      }
      if MergeAll(target, before).Some? {
        var so := MergeAll(target, before).value;
        MergeAllOfOne(so, values[n]);
        MergeSucceedsIffWithinLimits(so, values[n], 0);
      }
    }
  }

  // ---- Type-consistent inputs ----

  ghost predicate Agree(a: Json, b: Json) {
    forall path ::
      ShapeAt(a, path).Some? && ShapeAt(b, path).Some? ==>
        SameKind(ShapeAt(a, path).value, ShapeAt(b, path).value)
  }

  // No two values have different kinds at the same path.
  ghost predicate TypeConsistent(values: seq<Json>) {
    forall i, j :: 0 <= i < j < |values| ==> Agree(values[i], values[j])
  }

  // What the values are at a path, joined from first to last.
  function JoinedAt(so: Option<Shape>, values: seq<Json>, path: Path): Option<Shape>
    decreases |values|
  {
    if values == [] then so else JoinedAt(Join(so, ShapeAt(values[0], path)), values[1..], path)
  }

  lemma {:induction false} AgreeingNeverOverrides(target: Json, source: Json, path: Path)
    requires Agree(target, source)
    ensures !Overridden(target, source, path)
    decreases |path|
  {
    assert SameKind(ShapeAt(target, []).value, ShapeAt(source, []).value);
    if path != [] && target.Obj? && path[0] in target.fields && path[0] in source.fields {
      var a, b := target.fields[path[0]], source.fields[path[0]];
      forall rest | ShapeAt(a, rest).Some? && ShapeAt(b, rest).Some?
        ensures SameKind(ShapeAt(a, rest).value, ShapeAt(b, rest).value)
      {
        var longer := [path[0]] + rest;
        assert longer[1..] == rest;
        assert ShapeAt(target, longer) == ShapeAt(a, rest) && ShapeAt(source, longer) == ShapeAt(b, rest);
      }
      AgreeingNeverOverrides(a, b, path[1..]);
    }
  }

  lemma AgreeingMergeJoins(target: Json, source: Json, path: Path)
    requires Agree(target, source) && Merge(target, source, 0).Some?
    ensures
      ShapeAt(Merge(target, source, 0).value, path) == Join(ShapeAt(target, path), ShapeAt(source, path))
  {
    MergeHasPathSemantics(target, source, 0, path);
    AgreeingNeverOverrides(target, source, path);
  }

  lemma MergeAgrees(target: Json, source: Json, other: Json)
    requires Agree(target, source) && Agree(target, other) && Agree(source, other)
    requires Merge(target, source, 0).Some?
    ensures Agree(Merge(target, source, 0).value, other)
  {
    hide Merge, ShapeAt;
    forall path
      ensures
        ShapeAt(Merge(target, source, 0).value, path) == Join(ShapeAt(target, path), ShapeAt(source, path))
    {
      AgreeingMergeJoins(target, source, path);
    }
  }

  lemma MergeStaysConsistent(target: Json, values: seq<Json>)
    requires values != [] && TypeConsistent([target] + values) && Merge(target, values[0], 0).Some?
    ensures TypeConsistent([Merge(target, values[0], 0).value] + values[1..])
  {
    hide Merge, Agree;
    var all := [target] + values;
    var next := [Merge(target, values[0], 0).value] + values[1..];
    assert Agree(all[0], all[1]);
    forall i, j | 0 <= i < j < |next|
      ensures Agree(next[i], next[j])
    {
      assert next[j] == all[j + 1] && Agree(all[0], all[j + 1]) && Agree(all[1], all[j + 1]);
      if i == 0 {
        MergeAgrees(target, values[0], next[j]);
      } else {
        assert next[i] == all[i + 1] && Agree(all[i + 1], all[j + 1]);
      }
    }
  }

  // ---- Main results ----

  /** For type-consistent values whose fold succeeds, the result at every path joins what the values are
      there, in order: the union of the keys, the items one list after the other, the last scalar. */
  lemma {:induction false} FoldHasPathSemantics(target: Json, values: seq<Json>, path: Path)
    requires TypeConsistent([target] + values) && MergeAll(target, values).Some?
    ensures
      ShapeAt(MergeAll(target, values).value, path) == JoinedAt(ShapeAt(target, path), values, path)
    decreases |values|
  {
    hide Merge, ShapeAt, Join, Agree;
    if values != [] {
      var all := [target] + values;
      assert Agree(all[0], all[1]);
      AgreeingMergeJoins(target, values[0], path);
      MergeStaysConsistent(target, values);
      FoldHasPathSemantics(Merge(target, values[0], 0).value, values[1..], path);
    }
  }

  /** A merge lets an array past 128 items exactly when the source brings it where it replaced a value of
      another kind. */
  lemma OnlyReplacementBypassesLimit(target: Json, source: Json, depth: nat, path: Path)
    requires depth <= MAX_DEPTH + 1 && Merge(target, source, depth).Some?
    requires ItemCount(ShapeAt(target, path)) <= MAX_ITEMS
    ensures
      ItemCount(ShapeAt(Merge(target, source, depth).value, path)) > MAX_ITEMS
      <==> Overridden(target, source, path) && ItemCount(ShapeAt(source, path)) > MAX_ITEMS
  {
    MergeHasPathSemantics(target, source, depth, path);
    MergeSucceedsIffWithinLimits(target, source, depth);
    assert WithinLimits(target, source, depth, path);
    if !Overridden(target, source, path) && path != [] {
      OverriddenLonger(target, source, path);
    }
    hide Merge, ShapeAt, Overridden;
  }

  // The value before input `i` is merged into it.
  function Before(target: Json, values: seq<Json>, i: nat): Json
    requires i <= |values|
  {
    var so := MergeAll(target, values[..i]);
    if so.Some? then so.value else target
  }

  // Input `i` replaced a value of another kind on the way to `path`.
  predicate Replaces(target: Json, values: seq<Json>, i: nat, path: Path)
    requires i < |values|
  {
    Overridden(Before(target, values, i), values[i], path)
  }

  // Input `i` is the last to replace a value of another kind there, and brings an array past the limit.
  predicate BringsTooMany(target: Json, values: seq<Json>, i: nat, path: Path) {
    && i < |values| && Replaces(target, values, i, path)
    && ItemCount(ShapeAt(values[i], path)) > MAX_ITEMS
    && forall j :: i < j < |values| ==> !Replaces(target, values, j, path)
  }

  lemma LastMerge(target: Json, values: seq<Json>)
    requires values != [] && MergeAll(target, values).Some?
    ensures
      var n := |values| - 1;
      && MergeAll(target, values[..n]) == Some(Before(target, values, n))
      && Merge(Before(target, values, n), values[n], 0) == MergeAll(target, values)
  {
    hide Merge;
    var n := |values| - 1;
    assert values == values[..n] + [values[n]];
    MergeAllOfConcat(target, values[..n], [values[n]]);
    if MergeAll(target, values[..n]).Some? {
      MergeAllOfOne(MergeAll(target, values[..n]).value, values[n]);
    }
  }

  lemma {:induction false} UnreplacedSameKind(target: Json, source: Json, path: Path)
    requires !Overridden(target, source, path) && ShapeAt(target, path).Some? && ShapeAt(source, path).Some?
    ensures SameKind(ShapeAt(target, path).value, ShapeAt(source, path).value)
    decreases |path|
  {
    if path != [] {
      UnreplacedSameKind(target.fields[path[0]], source.fields[path[0]], path[1..]);
    }
  }

  lemma JoinStaysWithin(a: Option<Shape>, b: Option<Shape>)
    requires b.Some? ==> WithinSize(b.value, ItemCount(a))
    requires a.Some? && b.Some? ==> SameKind(a.value, b.value)
    ensures ItemCount(Join(a, b)) > MAX_ITEMS <==> ItemCount(a) > MAX_ITEMS
  {
  }

  lemma UnreplacedIsWithin(target: Json, source: Json, path: Path)
    requires Merge(target, source, 0).Some? && !Overridden(target, source, path) && ShapeAt(source, path).Some?
    ensures WithinSize(ShapeAt(source, path).value, ItemCount(ShapeAt(target, path)))
  {
    hide Merge, ShapeAt, Overridden, WithinSize;
    MergeSucceedsIffWithinLimits(target, source, 0);
    assert WithinLimits(target, source, 0, path);
    if path != [] {
      OverriddenLonger(target, source, path);
    }
  }

  // Where nothing is replaced, a merge neither starts nor ends an array past the limit.
  lemma UnreplacedStays(target: Json, source: Json, path: Path)
    requires Merge(target, source, 0).Some? && !Overridden(target, source, path)
    ensures ItemCount(ShapeAt(Merge(target, source, 0).value, path)) > MAX_ITEMS
            <==> ItemCount(ShapeAt(target, path)) > MAX_ITEMS
  {
    hide Merge, ShapeAt, Overridden, WithinSize, Join, ItemCount, SameKind;
    MergeHasPathSemantics(target, source, 0, path);
    if ShapeAt(source, path).Some? {
      UnreplacedIsWithin(target, source, path);
      if ShapeAt(target, path).Some? {
        UnreplacedSameKind(target, source, path);
      }
    }
    JoinStaysWithin(ShapeAt(target, path), ShapeAt(source, path));
  }

  lemma SameBefore(target: Json, values: seq<Json>, i: nat)
    requires values != [] && i < |values|
    ensures Before(target, values[..|values| - 1], i) == Before(target, values, i)
  {
    assert values[..|values| - 1][..i] == values[..i];
  }

  /** Over any inputs whose fold succeeds, an array of the result has more than 128 items if and only if
      the last input that replaced a value of another kind on its path brought it so. */
  lemma {:induction false} OnlyReplacementBypassesFold(target: Json, values: seq<Json>, path: Path)
    requires MergeAll(target, values).Some? && ItemCount(ShapeAt(target, path)) <= MAX_ITEMS
    ensures
      ItemCount(ShapeAt(MergeAll(target, values).value, path)) > MAX_ITEMS
      <==> exists i: nat :: BringsTooMany(target, values, i, path)
    decreases |values|
  {
    hide Merge, ShapeAt, Overridden, Before, MergeAll;
    if values == [] {
      NothingMergedAll(target);
    } else {
      var n := |values| - 1;
      LastMerge(target, values);
      var before := Before(target, values, n);
      forall i: nat | i < n
        ensures Before(target, values[..n], i) == Before(target, values, i)
      {
        SameBefore(target, values, i);
      }
      if Replaces(target, values, n, path) {
        ReplacedIsSource(before, values[n], path);
        assert BringsTooMany(target, values, n, path) <==> ItemCount(ShapeAt(values[n], path)) > MAX_ITEMS;
      } else {
        UnreplacedStays(before, values[n], path);
        OnlyReplacementBypassesFold(target, values[..n], path);
        SameCulprits(target, values, values[..n], path);
      }
    }
  }

  lemma NothingMergedAll(target: Json)
    ensures MergeAll(target, []) == Some(target)
  {
  }

  lemma ReplacedIsSource(target: Json, source: Json, path: Path)
    requires Merge(target, source, 0).Some? && Overridden(target, source, path)
    ensures ShapeAt(Merge(target, source, 0).value, path) == ShapeAt(source, path)
  {
    MergeHasPathSemantics(target, source, 0, path);
    hide Merge, ShapeAt, Overridden;
  }

  lemma SameCulprits(target: Json, values: seq<Json>, shorter: seq<Json>, path: Path)
    requires values != [] && shorter == values[..|values| - 1] && !Replaces(target, values, |values| - 1, path)
    ensures
      (exists i: nat :: BringsTooMany(target, shorter, i, path)) <==> (exists i: nat :: BringsTooMany(target, values, i, path))
  {
    hide Overridden, ShapeAt, Before;
    forall i: nat | i < |shorter|
      ensures Replaces(target, shorter, i, path) == Replaces(target, values, i, path)
    {
      SameBefore(target, values, i);
    }
    forall i: nat
      ensures BringsTooMany(target, shorter, i, path) == BringsTooMany(target, values, i, path)
    {
    }
  }

  lemma {:induction false} OverriddenLonger(target: Json, source: Json, path: Path)
    requires path != [] && !Overridden(target, source, path)
    ensures !Overridden(target, source, path[..|path| - 1])
    decreases |path|
  {
    var front := path[..|path| - 1];
    if front != [] && target.Obj? && path[0] in target.fields && path[0] in source.fields {
      assert front[1..] == path[1..][..|path| - 2];
      OverriddenLonger(target.fields[path[0]], source.fields[path[0]], path[1..]);
    }
  }

  /** From type-consistent inputs no array of the result has more than 128 items. */
  lemma {:induction false} ArraysStayShort(target: Json, values: seq<Json>, path: Path)
    requires TypeConsistent([target] + values) && MergeAll(target, values).Some?
    requires ItemCount(ShapeAt(target, path)) <= MAX_ITEMS
    ensures ItemCount(ShapeAt(MergeAll(target, values).value, path)) <= 128
    decreases |values|
  {
    hide Merge, ShapeAt, Join, Agree, Overridden;
    if values != [] {
      var all := [target] + values;
      assert Agree(all[0], all[1]);
      AgreeingNeverOverrides(target, values[0], path);
      OnlyReplacementBypassesLimit(target, values[0], 0, path);
      MergeStaysConsistent(target, values);
      ArraysStayShort(Merge(target, values[0], 0).value, values[1..], path);
    }
  }

  lemma MergeAllOfOne(target: Json, value: Json)
    ensures MergeAll(target, [value]) == Merge(target, value, 0)
  {
    hide Merge;
    assert [value][1..] == [];
  }

  /** A single accepted input comes back unchanged exactly when it is within the limits, and fails
      otherwise. */
  lemma SingleInputUnchanged(input: Input)
    requires Acceptable(input)
    ensures
      Expression(Some([input]))
      == if AllWithinLimits(Obj(map[]), input.parsed.value, 0) then Some(input.parsed.value) else None
  {
    hide AllWithinLimits, Merge;
    var value := input.parsed.value;
    MergeSucceedsIffWithinLimits(Obj(map[]), value, 0);
    if Merge(Obj(map[]), value, 0).Some? {
      MergeIntoBlank(value, 0);
    }
    assert Parsed([input]) == [value];
    MergeAllOfOne(Obj(map[]), value);
    var inputs := [input];
    assert forall i :: 0 <= i < |inputs| ==> Acceptable(inputs[i]);
  }

  lemma MergeOneKey(target: Json, key: string, value: Json)
    requires target.Obj? && target.fields.Keys <= {key} && !value.Obj?
    requires if key in target.fields then target.fields[key].Atom? else value.Atom?
    ensures Merge(target, Obj(map[key := value]), 0) == Some(Obj(map[key := value]))
  {
    OneKeyField(target, key, value);
    hide Merge, MergeField;
    var source := Obj(map[key := value]);
    assert source.fields.Keys == {key};
    assert |source.fields| == |source.fields.Keys| == 1;
    assert forall k :: k in source.fields ==> k == key;
    SucceedsByFields(target, source, 0);
    MergedFields(target, source, 0);
    var merged := Merge(target, source, 0).value.fields;
    assert merged.Keys == {key};
    assert merged[key] == value;
    assert merged == map[key := value];
  }

  lemma OneKeyField(target: Json, key: string, value: Json)
    requires target.Obj? && target.fields.Keys <= {key} && !value.Obj?
    requires if key in target.fields then target.fields[key].Atom? else value.Atom?
    ensures MergeField(target, Obj(map[key := value]), key, 0) == Some(value)
  {
  }

  /** Replacing a scalar by an array is not checked: two small inputs that disagree on a key's type give
      an array longer than the limit. */
  lemma MismatchBypassesLimit(key: string, items: seq<Json>, first: Input, second: Input)
    requires |items| > MAX_ITEMS && Acceptable(first) && Acceptable(second)
    requires first.parsed.value == Obj(map[key := Atom(1)]) && second.parsed.value == Obj(map[key := Arr(items)])
    ensures Expression(Some([first, second])) == Some(Obj(map[key := Arr(items)]))
  {
    hide Merge, MergeAll, Expression;
    var a, b := first.parsed.value, second.parsed.value;
    MergeOneKey(Obj(map[]), key, Atom(1));
    assert a.fields.Keys == {key} && a.fields[key] == Atom(1);
    MergeOneKey(a, key, Arr(items));
    MergeAllOfOne(Obj(map[]), a);
    MergeAllOfOne(a, b);
    MergeAllOfConcat(Obj(map[]), [a], [b]);
    assert [a] + [b] == [a, b];
    ExpressionOfTwo(first, second);
  }

  lemma ExpressionOfTwo(first: Input, second: Input)
    requires Acceptable(first) && Acceptable(second)
    ensures
      Expression(Some([first, second])) == MergeAll(Obj(map[]), [first.parsed.value, second.parsed.value])
  {
    hide MergeAll;
    var inputs := [first, second];
    assert Parsed(inputs) == [first.parsed.value, second.parsed.value];
    assert forall i :: 0 <= i < |inputs| ==> Acceptable(inputs[i]);
  }

  lemma ObjectsAgreeWithEmpty(values: seq<Json>)
    requires TypeConsistent(values) && forall i :: 0 <= i < |values| ==> values[i].Obj?
    ensures TypeConsistent([Obj(map[])] + values)
  {
    var all := [Obj(map[])] + values;
    forall i, j | 0 <= i < j < |all|
      ensures Agree(all[i], all[j])
    {
      if i > 0 {
        assert Agree(values[i - 1], values[j - 1]);
      }
    }
  }

  /** What a filter expression is: from type-consistent inputs, every path holds the join of what the
      inputs hold there, and no array exceeds 128 items. */
  lemma ExpressionHasPathSemantics(inputs: seq<Input>, path: Path)
    requires Expression(Some(inputs)).Some? && TypeConsistent(Parsed(inputs))
    ensures
      var output := Expression(Some(inputs)).value;
      && ShapeAt(output, path) == JoinedAt(ShapeAt(Obj(map[]), path), Parsed(inputs), path)
      && ItemCount(ShapeAt(output, path)) <= 128
  {
    hide Merge, MergeAll, Agree, TypeConsistent;
    ObjectsAgreeWithEmpty(Parsed(inputs));
    FoldHasPathSemantics(Obj(map[]), Parsed(inputs), path);
    ArraysStayShort(Obj(map[]), Parsed(inputs), path);
  }
}
