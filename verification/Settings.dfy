/**
 The module-scoped settings store: a tree of JSON objects addressed by dotted
 keys, changed in place one path component at a time.
 */
module Settings {
  import opened Options

  datatype Json =
    | Null
    | Bool(flag: bool)
    | Number(number: real)
    | Text(text: string)
    | Array(items: seq<Json>)
    | Object(fields: Fields)

  type Fields = map<string, Json>

  type Path = p: seq<string> | p != [] witness [""]

  // ---------------------------------------------------------------------------
  // Dotted keys
  // ---------------------------------------------------------------------------

  /** `key.split('.')`: always at least one part. */
  function Split(key: string): (parts: Path) {
    if key == "" then [""]
    else
      var rest := Split(key[1..]);
      if key[0] == '.' then [""] + rest else [[key[0]] + rest[0]] + rest[1..]
  }

  function Dotted(parts: Path): string {
    if |parts| == 1 then parts[0] else parts[0] + "." + Dotted(parts[1..])
  }

  /** Splitting loses nothing, and no part holds a dot. */
  lemma {:induction false} SplitRejoins(key: string)
    ensures Dotted(Split(key)) == key
    ensures forall i :: 0 <= i < |Split(key)| ==> '.' !in Split(key)[i]
  {
    if key != "" {
      var rest := Split(key[1..]);
      SplitRejoins(key[1..]);
      if key[0] == '.' {
        assert ([""] + rest)[1..] == rest;
      } else if |rest| > 1 {
        assert ([[key[0]] + rest[0]] + rest[1..])[1..] == rest[1..];
      }
    }
  }

  lemma {:induction false} SplitPart(part: string, key: string)
    requires '.' !in part
    ensures Split(part + "." + key) == [part] + Split(key)
  {
    var all := part + "." + key;
    if part == "" {
      assert all[1..] == key;
    } else {
      assert all[1..] == part[1..] + "." + key;
      SplitPart(part[1..], key);
      assert [part[0]] + part[1..] == part;
    }
  }

  lemma {:induction false} SplitDotless(part: string)
    requires '.' !in part
    ensures Split(part) == [part]
  {
    if part != "" {
      SplitDotless(part[1..]);
      assert [part[0]] + part[1..] == part;
    }
  }

  lemma {:induction false} SplitDotted(parts: Path)
    requires forall i :: 0 <= i < |parts| ==> '.' !in parts[i]
    ensures Split(Dotted(parts)) == parts
  {
    if |parts| == 1 {
      SplitDotless(parts[0]);
    } else {
      SplitDotted(parts[1..]);
      SplitPart(parts[0], Dotted(parts[1..]));
    }
  }

  lemma {:induction false} DottedAppend(a: Path, b: Path)
    ensures Dotted(a + b) == Dotted(a) + "." + Dotted(b)
  {
    if |a| == 1 {
      assert (a + b)[1..] == b;
    } else {
      assert (a + b)[1..] == a[1..] + b;
      DottedAppend(a[1..], b);
    }
  }

  lemma PrefixGivesKey(k: string, j: string)
    requires Split(k) <= Split(j)
    ensures j == k || k + "." <= j
  {
    SplitRejoins(k);
    SplitRejoins(j);
    var n := |Split(k)|;
    if n < |Split(j)| {
      var rest: Path := Split(j)[n..];
      assert Split(j) == Split(k) + rest;
      DottedAppend(Split(k), rest);
    } else {
      assert Split(j) == Split(k);
    }
  }

  lemma SplitLonger(k: string, rest: string)
    ensures Split(k + "." + rest) == Split(k) + Split(rest)
  {
    SplitRejoins(k);
    SplitRejoins(rest);
    DottedAppend(Split(k), Split(rest));
    SplitDotted(Split(k) + Split(rest));
  }

  /** One path is a prefix of another exactly when one key is, up to a dot. */
  lemma PrefixOfKeys(k: string, j: string)
    ensures Split(k) <= Split(j) <==> j == k || k + "." <= j
  {
    if Split(k) <= Split(j) { PrefixGivesKey(k, j); }
    if k + "." <= j {
      var rest := j[|k| + 1..];
      assert j == k + "." + rest;
      SplitLonger(k, rest);
    }
  }

  // ---------------------------------------------------------------------------
  // Reading and writing
  // ---------------------------------------------------------------------------

  /** The value at a path: only objects have members. */
  function GetPath(fields: Fields, path: Path): Option<Json> {
    if path[0] !in fields then None
    else Inside(fields[path[0]], path[1..])
  }

  /** The value reached from `value` by the remaining parts. */
  function Inside(value: Json, path: seq<string>): Option<Json>
    decreases |path|
  {
    if path == [] then Some(value)
    else if !value.Object? || path[0] !in value.fields then None
    else Inside(value.fields[path[0]], path[1..])
  }

  datatype Result<T> = Ok(value: T) | Err(error: Error)

  datatype Error = KeyTooShort | ModuleNotObject(name: string) | PartNotObject(name: string)

  /** A member, or the empty object that is created when it is missing. */
  function Child(fields: Fields, name: string): Json {
    if name in fields then fields[name] else Object(map[])
  }

  /** The tree with `v` at the path, or the part that is not an object. */
  function SetPath(fields: Fields, path: Path, v: Json): Result<Fields>
    decreases |path|
  {
    if |path| == 1 then Ok(fields[path[0] := v])
    else
      var child := Child(fields, path[0]);
      if !child.Object? then Err(PartNotObject(path[0]))
      else
        match SetPath(child.fields, path[1..], v)
        case Ok(changed) => Ok(fields[path[0] := Object(changed)])
        case Err(e) => Err(e)
  }

  /** `Settings::set` on a whole key. */
  function SetKey(modules: Fields, key: string, v: Json): Result<Fields> {
    var path := Split(key);
    if |path| < 2 then Err(KeyTooShort)
    else
      match SetPath(modules, path, v)
      case Ok(changed) => Ok(changed)
      case Err(e) => Err(if Child(modules, path[0]).Object? then e else ModuleNotObject(path[0]))
  }

  // ---------------------------------------------------------------------------
  // A cursor into the tree, as `set` moves it
  // ---------------------------------------------------------------------------

  /** The object a chain of mutable borrows points at. */
  function ObjectAt(fields: Fields, at: seq<string>): Option<Fields>
    decreases |at|
  {
    if at == [] then Some(fields)
    else if at[0] in fields && fields[at[0]].Object? then ObjectAt(fields[at[0]].fields, at[1..])
    else None
  }

  /** The whole tree after one member of that object was written. */
  function WriteAt(fields: Fields, at: seq<string>, name: string, v: Json): Fields
    requires ObjectAt(fields, at).Some?
    decreases |at|
  {
    if at == [] then fields[name := v]
    else fields[at[0] := Object(WriteAt(fields[at[0]].fields, at[1..], name, v))]
  }

  lemma {:induction false} ObjectAtWritten(fields: Fields, at: seq<string>, name: string, v: Json)
    requires ObjectAt(fields, at).Some?
    ensures ObjectAt(WriteAt(fields, at, name, v), at) == Some(ObjectAt(fields, at).value[name := v])
    decreases |at|
  {
    if at != [] { ObjectAtWritten(fields[at[0]].fields, at[1..], name, v); }
  }

  lemma {:induction false} ObjectAtChild(fields: Fields, at: seq<string>, name: string)
    requires ObjectAt(fields, at).Some?
    requires name in ObjectAt(fields, at).value && ObjectAt(fields, at).value[name].Object?
    ensures ObjectAt(fields, at + [name]) == Some(ObjectAt(fields, at).value[name].fields)
    decreases |at|
  {
    if at == [] {
      assert (at + [name])[1..] == [];
    } else {
      assert (at + [name])[1..] == at[1..] + [name];
      ObjectAtChild(fields[at[0]].fields, at[1..], name);
    }
  }

  /** Writing the last part at the cursor is setting the path. */
  lemma {:induction false} WriteSets(fields: Fields, at: seq<string>, name: string, v: Json)
    requires ObjectAt(fields, at).Some?
    ensures SetPath(fields, at + [name], v) == Ok(WriteAt(fields, at, name, v))
    decreases |at|
  {
    if at != [] {
      assert (at + [name])[1..] == at[1..] + [name];
      WriteSets(fields[at[0]].fields, at[1..], name, v);
    }
  }

  lemma Overwrite(fields: Fields, name: string, a: Json, b: Json)
    ensures fields[name := a][name := b] == fields[name := b]
  {
  }

  lemma Swap(fields: Fields, m: string, a: Json, n: string, b: Json)
    requires m != n
    ensures fields[m := a][n := b] == fields[n := b][m := a]
  {
  }

  /** Replacing a child by an object in which the rest of the path sets to the same tree changes nothing. */
  lemma ChildReplaced(fields: Fields, name: string, child: Json, path: Path, v: Json)
    requires |path| > 1 && path[0] == name
    requires child.Object? && Child(fields, name).Object?
    requires SetPath(child.fields, path[1..], v) == SetPath(Child(fields, name).fields, path[1..], v)
    ensures SetPath(fields[name := child], path, v) == SetPath(fields, path, v)
  {
    assert Child(fields[name := child], name) == child;
    match SetPath(child.fields, path[1..], v)
    case Ok(changed) => Overwrite(fields, name, child, Object(changed));
    case Err(_) =>
  }

  lemma CreatingHere(fields: Fields, name: string, rest: Path, v: Json)
    requires name !in fields
    ensures SetPath(fields[name := Object(map[])], [name] + rest, v) == SetPath(fields, [name] + rest, v)
  {
    ChildReplaced(fields, name, Object(map[]), [name] + rest, v);
  }

  /** Creating a missing object under the cursor does not change what setting a longer path gives. */
  lemma {:induction false} CreatingIsNeutral(fields: Fields, at: seq<string>, name: string, rest: Path, v: Json)
    requires ObjectAt(fields, at).Some? && name !in ObjectAt(fields, at).value
    ensures SetPath(WriteAt(fields, at, name, Object(map[])), at + [name] + rest, v) == SetPath(fields, at + [name] + rest, v)
    decreases |at|
  {
    var path: Path := at + [name] + rest;
    if at == [] {
      assert path[0] == name;
      assert path[1..] == rest;
      CreatingHere(fields, name, rest, v);
      assert path == [name] + rest;
    } else {
      assert path[1..] == at[1..] + [name] + rest;
      var child := fields[at[0]].fields;
      var made := WriteAt(child, at[1..], name, Object(map[]));
      CreatingIsNeutral(child, at[1..], name, rest, v);
      ChildReplaced(fields, at[0], Object(made), path, v);
    }
  }

  /** A member under the cursor that is not an object is what makes setting a longer path fail. */
  lemma {:induction false} BlockedAt(fields: Fields, at: seq<string>, name: string, rest: Path, v: Json)
    requires ObjectAt(fields, at).Some? && name in ObjectAt(fields, at).value
    requires !ObjectAt(fields, at).value[name].Object?
    ensures SetPath(fields, at + [name] + rest, v) == Err(PartNotObject(name))
    decreases |at|
  {
    var path: Path := at + [name] + rest;
    if at != [] {
      assert path[1..] == at[1..] + [name] + rest;
      BlockedAt(fields[at[0]].fields, at[1..], name, rest, v);
    }
  }

  /** The tree after the cursor moved on to `part`, which is created if it is missing. */
  function Entered(fields: Fields, at: seq<string>, part: string): Fields
    requires ObjectAt(fields, at).Some?
  {
    if part in ObjectAt(fields, at).value then fields else WriteAt(fields, at, part, Object(map[]))
  }

  /** Moving the cursor does not change what setting the whole path gives. */
  lemma EnteringIsNeutral(fields: Fields, at: seq<string>, part: string, rest: Path, v: Json)
    requires ObjectAt(fields, at).Some?
    ensures var made, child := Entered(fields, at, part), Child(ObjectAt(fields, at).value, part);
      var all: Path := at + [part] + rest;
      && SetPath(made, all, v) == SetPath(fields, all, v)
      && (child.Object? ==> ObjectAt(made, at + [part]) == Some(child.fields))
      && (!child.Object? ==> made == fields && SetPath(fields, all, v) == Err(PartNotObject(part)))
  {
    if part !in ObjectAt(fields, at).value {
      CreatingIsNeutral(fields, at, part, rest, v);
      ObjectAtWritten(fields, at, part, Object(map[]));
      ObjectAtChild(Entered(fields, at, part), at, part);
    } else if ObjectAt(fields, at).value[part].Object? {
      ObjectAtChild(fields, at, part);
    } else {
      BlockedAt(fields, at, part, rest, v);
    }
  }

  /** What `set` keeps while it descends: the tree may have gained empty objects, but
      setting the whole path in it still gives what it gave at the start. */
  ghost predicate OnTheWay(before: Fields, now: Fields, path: Path, i: nat, v: Json)
    requires i < |path|
  {
    && ObjectAt(now, path[..i]).Some?
    && SetPath(now, path, v) == SetPath(before, path, v)
    && (now == before || (i > 0 && ObjectAt(now, path[..i]) == Some(map[])))
    && (i > 0 ==> Child(before, path[0]).Object?)
  }

  lemma EnterOnTheWay(before: Fields, now: Fields, path: Path, i: nat, v: Json)
    requires i < |path| - 1 && OnTheWay(before, now, path, i, v)
    ensures var child := Child(ObjectAt(now, path[..i]).value, path[i]);
      && (child.Object? ==> OnTheWay(before, Entered(now, path[..i], path[i]), path, i + 1, v))
      && (!child.Object? ==>
            && Entered(now, path[..i], path[i]) == before
            && SetPath(before, path, v) == Err(PartNotObject(path[i]))
            && (i == 0 <==> !Child(before, path[0]).Object?))
  {
    EnteringIsNeutral(now, path[..i], path[i], path[i + 1..], v);
    assert path[..i] + [path[i]] == path[..i + 1];
    assert path[..i + 1] + path[i + 1..] == path;
  }

  lemma ArriveOnTheWay(before: Fields, now: Fields, path: Path, v: Json)
    requires OnTheWay(before, now, path, |path| - 1, v)
    ensures SetPath(before, path, v) == Ok(WriteAt(now, path[..|path| - 1], path[|path| - 1], v))
  {
    WriteSets(now, path[..|path| - 1], path[|path| - 1], v);
    assert path[..|path| - 1] + [path[|path| - 1]] == path;
  }

  class Settings {
    var modules: Fields

    constructor (modules: Fields)
      ensures this.modules == modules
    {
      this.modules := modules;
    }

    /** Walks down from the module, one part at a time. */
    method Get(key: string) returns (r: Option<Json>)
      ensures r == GetPath(modules, Split(key))
    {
      var parts := Split(key);
      if parts[0] !in modules { return None; }
      var value := modules[parts[0]];
      var i := 1;
      while i < |parts|
        invariant 1 <= i <= |parts|
        invariant GetPath(modules, Split(key)) == Inside(value, parts[i..])
      {
        if !value.Object? || parts[i] !in value.fields { return None; }
        value := value.fields[parts[i]];
        i := i + 1;
        assert parts[i - 1..][1..] == parts[i..];
      }
      r := Some(value);
    }

    /** Moves the cursor to a member, creating it as an empty object if it is missing. */
    method Enter(at: seq<string>, part: string) returns (ok: bool)
      requires ObjectAt(modules, at).Some?
      modifies this
      ensures modules == Entered(old(modules), at, part)
      ensures ok == Child(ObjectAt(old(modules), at).value, part).Object?
    {
      if part !in ObjectAt(modules, at).value {
        ObjectAtWritten(modules, at, part, Object(map[]));
        modules := WriteAt(modules, at, part, Object(map[]));
      }
      ok := ObjectAt(modules, at).value[part].Object?;
    }

    /** `get_with_schema_default`: the own value, else the default's. */
    method GetWithSchemaDefault(key: string, defaults: Fields) returns (r: Option<Json>)
      ensures r == GetWithDefault(modules, defaults, Split(key))
    {
      r := Get(key);
      if r.None? {
        var schema := new Settings(defaults);
        r := schema.Get(key);
      }
    }

    /** Sets a dotted value, creating missing objects on the way; an error leaves the tree as it was. */
    method Set(key: string, v: Json) returns (r: Result<()>)
      modifies this
      ensures match SetKey(old(modules), key, v)
        case Ok(changed) => r == Ok(()) && modules == changed
        case Err(e) => r == Err(e) && modules == old(modules)
    {
      var path := Split(key);
      if |path| < 2 { return Err(KeyTooShort); }
      ghost var before := modules;
      var i := 0;
      while i < |path| - 1
        invariant 0 <= i < |path|
        invariant OnTheWay(before, modules, path, i, v)
      {
        EnterOnTheWay(before, modules, path, i, v);
        var ok := Enter(path[..i], path[i]);
        if !ok { return Err(if i == 0 then ModuleNotObject(path[i]) else PartNotObject(path[i])); }
        i := i + 1;
      }
      ArriveOnTheWay(before, modules, path, v);
      modules := WriteAt(modules, path[..i], path[i], v);
      r := Ok(());
    }

    /** Adds the default modules that are missing, in whatever order they come. */
    method Merge(defaults: Fields)
      modifies this
      ensures modules == Merged(old(modules), defaults)
    {
      ghost var own := modules;
      var left := defaults.Keys;
      while left != {}
        invariant left <= defaults.Keys
        invariant forall k :: k in modules <==> k in own || (k in defaults && k !in left)
        invariant forall k :: k in modules ==> modules[k] == Merged(own, defaults)[k]
        decreases |left|
      {
        var k :| k in left;
        left := left - {k};
        if k !in modules { modules := modules[k := defaults[k]]; }
      }
      assert modules.Keys == Merged(own, defaults).Keys;
    }
  }

  // ---------------------------------------------------------------------------
  // Path laws
  // ---------------------------------------------------------------------------

  predicate Incomparable(p: seq<string>, q: seq<string>) {
    !(p <= q) && !(q <= p)
  }

  lemma TailsIncomparable(p: Path, q: Path)
    requires Incomparable(p, q) && p[0] == q[0]
    ensures |p| > 1 && |q| > 1 && Incomparable(p[1..], q[1..])
  {
    assert p == [p[0]] + p[1..] && q == [q[0]] + q[1..];
  }

  /** Reading one part further is looking it up in the object read so far. */
  lemma {:induction false} GetOneFurther(fields: Fields, p: seq<string>, name: string)
    ensures GetPath(fields, p + [name])
         == if p == [] then (if name in fields then Some(fields[name]) else None)
            else match GetPath(fields, p)
                 case Some(Object(members)) => (if name in members then Some(members[name]) else None)
                 case _ => None
  {
    var path := p + [name];
    if p == [] {
      assert path[1..] == [];
    } else if p[0] in fields {
      assert path[1..] == p[1..] + [name];
      InsideOneFurther(fields[p[0]], p[1..], name);
    }
  }

  lemma {:induction false} InsideOneFurther(value: Json, p: seq<string>, name: string)
    ensures Inside(value, p + [name])
         == match Inside(value, p)
            case Some(Object(members)) => (if name in members then Some(members[name]) else None)
            case _ => None
    decreases |p|
  {
    if p == [] {
      assert (p + [name])[1..] == [];
    } else if value.Object? && p[0] in value.fields {
      assert (p + [name])[1..] == p[1..] + [name];
      InsideOneFurther(value.fields[p[0]], p[1..], name);
    }
  }

  /** What was set is what is read, also through an extension of the key. */
  lemma {:induction false} GetAfterSet(fields: Fields, p: Path, v: Json, q: seq<string>)
    requires SetPath(fields, p, v).Ok?
    ensures GetPath(SetPath(fields, p, v).value, p + q) == Inside(v, q)
    decreases |p|
  {
    if |p| == 1 {
      assert (p + q)[1..] == q;
    } else {
      var child := Child(fields, p[0]);
      assert (p + q)[1..] == p[1..] + q;
      GetAfterSet(child.fields, p[1..], v, q);
    }
  }

  /** Every proper prefix of a key that was set holds an object. */
  lemma {:induction false} PrefixHoldsObject(fields: Fields, p: Path, v: Json, n: nat)
    requires SetPath(fields, p, v).Ok? && 0 < n < |p|
    ensures var r := GetPath(SetPath(fields, p, v).value, p[..n]);
      r.Some? && r.value.Object?
    decreases |p|
  {
    var child := Child(fields, p[0]);
    if n > 1 {
      PrefixHoldsObject(child.fields, p[1..], v, n - 1);
      assert p[..n][1..] == p[1..][..n - 1];
    }
  }

  /** Keys that are neither a prefix nor an extension of the one set read as before. */
  lemma {:induction false} SetFrames(fields: Fields, p: Path, v: Json, q: Path)
    requires SetPath(fields, p, v).Ok? && Incomparable(p, q)
    ensures GetPath(SetPath(fields, p, v).value, q) == GetPath(fields, q)
    decreases |p|
  {
    if p[0] == q[0] {
      TailsIncomparable(p, q);
      var child := Child(fields, p[0]);
      SetFrames(child.fields, p[1..], v, q[1..]);
    }
  }

  /** Sets on incomparable keys commute to the same tree. */
  lemma {:induction false} SetsCommute(fields: Fields, p: Path, v: Json, q: Path, w: Json)
    requires SetPath(fields, p, v).Ok? && SetPath(fields, q, w).Ok? && Incomparable(p, q)
    ensures SetPath(SetPath(fields, p, v).value, q, w).Ok?
    ensures SetPath(SetPath(fields, p, v).value, q, w) == SetPath(SetPath(fields, q, w).value, p, v)
    decreases |p|
  {
    if p[0] == q[0] {
      TailsIncomparable(p, q);
      var child := Child(fields, p[0]);
      SetsCommute(child.fields, p[1..], v, q[1..], w);
      SetsBelow(fields, p, v, q, w);
      SetsBelow(fields, q, w, p, v);
    } else {
      SetsApart(fields, p, v, q, w);
    }
  }

  /** What a successful set puts under the first part. */
  function Put(fields: Fields, p: Path, v: Json): Json
    requires SetPath(fields, p, v).Ok?
  {
    SetPath(fields, p, v).value[p[0]]
  }

  /** A set depends on the first part's child alone and changes nothing else. */
  lemma SetIsLocal(fields: Fields, other: Fields, p: Path, v: Json)
    requires SetPath(fields, p, v).Ok? && Child(fields, p[0]) == Child(other, p[0])
    ensures SetPath(other, p, v) == Ok(other[p[0] := Put(fields, p, v)])
  {
  }

  lemma SetsApart(fields: Fields, p: Path, v: Json, q: Path, w: Json)
    requires SetPath(fields, p, v).Ok? && SetPath(fields, q, w).Ok? && p[0] != q[0]
    ensures SetPath(SetPath(fields, p, v).value, q, w).Ok?
    ensures SetPath(SetPath(fields, p, v).value, q, w) == SetPath(SetPath(fields, q, w).value, p, v)
  {
    var a, b := Put(fields, p, v), Put(fields, q, w);
    SetIsLocal(fields, fields, p, v);
    SetIsLocal(fields, fields, q, w);
    SetIsLocal(fields, fields[p[0] := a], q, w);
    SetIsLocal(fields, fields[q[0] := b], p, v);
    Swap(fields, p[0], a, q[0], b);
  }

  /** Setting two paths below the same child. */
  lemma SetsBelow(fields: Fields, p: Path, v: Json, q: Path, w: Json)
    requires |p| > 1 && |q| > 1 && p[0] == q[0] && SetPath(fields, p, v).Ok?
    ensures SetPath(SetPath(fields, p, v).value, q, w)
         == match SetPath(SetPath(Child(fields, p[0]).fields, p[1..], v).value, q[1..], w)
            case Ok(changed) => Ok(fields[p[0] := Object(changed)])
            case Err(e) => Err(e)
  {
    var once := SetPath(Child(fields, p[0]).fields, p[1..], v).value;
    match SetPath(once, q[1..], w)
    case Ok(changed) => Overwrite(fields, p[0], Object(once), Object(changed));
    case Err(_) =>
  }

  /** The last of two sets on one key wins, whatever the first wrote. */
  lemma {:induction false} LastSetWins(fields: Fields, p: Path, v: Json, w: Json)
    requires SetPath(fields, p, v).Ok?
    ensures SetPath(SetPath(fields, p, v).value, p, w) == SetPath(fields, p, w)
    decreases |p|
  {
    if |p| == 1 {
      Overwrite(fields, p[0], v, w);
    } else {
      LastSetWins(Child(fields, p[0]).fields, p[1..], v, w);
      SetsBelow(fields, p, v, p, w);
    }
  }

  /** Setting what is already there changes nothing. */
  lemma {:induction false} SetSame(fields: Fields, p: Path, v: Json)
    requires GetPath(fields, p) == Some(v)
    ensures SetPath(fields, p, v) == Ok(fields)
    decreases |p|
  {
    if |p| == 1 {
      assert fields[p[0] := v] == fields;
    } else {
      SetSame(fields[p[0]].fields, p[1..], v);
      assert fields[p[0] := fields[p[0]]] == fields;
    }
  }

  /** Some value that is not an object stands at this path. */
  predicate Blocks(fields: Fields, path: Path) {
    var r := GetPath(fields, path);
    r.Some? && !r.value.Object?
  }

  ghost predicate Blocked(fields: Fields, p: Path) {
    exists n :: 0 < n < |p| && Blocks(fields, p[..n])
  }

  lemma BlocksBelow(fields: Fields, p: Path, n: nat)
    requires 1 < n <= |p| && p[0] in fields && fields[p[0]].Object?
    ensures Blocks(fields, p[..n]) <==> Blocks(fields[p[0]].fields, p[1..][..n - 1])
  {
    assert p[..n][1..] == p[1..][..n - 1];
  }

  lemma BlockedBelow(fields: Fields, p: Path)
    requires |p| > 1 && p[0] in fields && fields[p[0]].Object?
    ensures Blocked(fields, p) <==> Blocked(fields[p[0]].fields, p[1..])
  {
    var child := fields[p[0]].fields;
    if n :| 0 < n < |p| && Blocks(fields, p[..n]) {
      if n > 1 {
        BlocksBelow(fields, p, n);
        assert Blocks(child, p[1..][..n - 1]);
      }
    }
    if n :| 0 < n < |p[1..]| && Blocks(child, p[1..][..n]) {
      BlocksBelow(fields, p, n + 1);
      assert Blocks(fields, p[..n + 1]);
    }
  }

  /** A set succeeds exactly when no proper prefix of its path holds a value that is not an object. */
  lemma {:induction false} SetSucceedsIff(fields: Fields, p: Path, v: Json)
    ensures SetPath(fields, p, v).Ok? <==> !Blocked(fields, p)
    decreases |p|
  {
    if |p| > 1 {
      if p[0] in fields && fields[p[0]].Object? {
        BlockedBelow(fields, p);
        SetSucceedsIff(fields[p[0]].fields, p[1..], v);
      } else if p[0] in fields {
        assert p[..1] == [p[0]];
        assert Blocks(fields, p[..1]);
      } else {
        SetSucceedsIff(map[], p[1..], v);
      }
    }
  }

  /** The error names the part that is not an object. */
  lemma {:induction false} ErrorNamesPart(fields: Fields, p: Path, v: Json, m: nat)
    requires 0 < m < |p| && Blocks(fields, p[..m])
    ensures SetPath(fields, p, v) == Err(PartNotObject(p[m - 1]))
    decreases |p|
  {
    if m > 1 {
      BlocksBelow(fields, p, m);
      ErrorNamesPart(fields[p[0]].fields, p[1..], v, m - 1);
    }
  }

  /** The three errors of a whole key: no dot; the module is no object; or the named part after it is none. */
  lemma SetKeyErrors(modules: Fields, key: string, v: Json, m: nat)
    ensures '.' !in key ==> SetKey(modules, key, v) == Err(KeyTooShort)
    ensures '.' in key && 0 < m < |Split(key)| && Blocks(modules, Split(key)[..m]) ==>
      SetKey(modules, key, v) == Err(if m == 1 then ModuleNotObject(Split(key)[0]) else PartNotObject(Split(key)[m - 1]))
  {
    var p := Split(key);
    SplitRejoins(key);
    if |p| > 1 { assert '.' in p[0] + "." + Dotted(p[1..]); }
    if '.' in key && 0 < m < |p| && Blocks(modules, p[..m]) { ErrorNamesPart(modules, p, v, m); }
  }

  /** For a whole key: too short, or blocked, or done. */
  lemma SetKeySucceedsIff(modules: Fields, key: string, v: Json)
    ensures SetKey(modules, key, v).Ok? <==> '.' in key && !Blocked(modules, Split(key))
  {
    SetSucceedsIff(modules, Split(key), v);
    SplitRejoins(key);
    if |Split(key)| > 1 {
      assert '.' in Split(key)[0] + "." + Dotted(Split(key)[1..]);
    }
  }

  /** Neither key is the other or lies below it. */
  predicate Unrelated(k: string, j: string) {
    k != j && !(k + "." <= j) && !(j + "." <= k)
  }

  /** The laws on whole keys: a set value is read back, and unrelated keys keep their answers. */
  lemma KeyLaws(modules: Fields, k: string, v: Json, j: string)
    requires SetKey(modules, k, v).Ok?
    ensures GetPath(SetKey(modules, k, v).value, Split(k)) == Some(v)
    ensures Unrelated(k, j) ==> GetPath(SetKey(modules, k, v).value, Split(j)) == GetPath(modules, Split(j))
  {
    GetAfterSet(modules, Split(k), v, []);
    assert Split(k) + [] == Split(k);
    PrefixOfKeys(k, j);
    PrefixOfKeys(j, k);
    if Unrelated(k, j) { SetFrames(modules, Split(k), v, Split(j)); }
  }

  /** Sets on unrelated keys commute. */
  lemma KeySetsCommute(modules: Fields, k: string, v: Json, j: string, w: Json)
    requires SetKey(modules, k, v).Ok? && SetKey(modules, j, w).Ok? && Unrelated(k, j)
    ensures SetKey(SetKey(modules, k, v).value, j, w).Ok?
    ensures SetKey(SetKey(modules, k, v).value, j, w) == SetKey(SetKey(modules, j, w).value, k, v)
  {
    PrefixOfKeys(k, j);
    PrefixOfKeys(j, k);
    SetsCommute(modules, Split(k), v, Split(j), w);
  }

  // ---------------------------------------------------------------------------
  // Building and merging the schema defaults
  // ---------------------------------------------------------------------------

  datatype Field = Field(key: string, default: Option<Json>)

  /** Sets every default in order; a field that cannot be set is skipped. */
  function Defaults(fields: seq<Field>): Fields {
    if fields == [] then map[]
    else
      var n := |fields| - 1;
      var before := Defaults(fields[..n]);
      match fields[n].default
      case None => before
      case Some(v) =>
        match SetKey(before, fields[n].key, v)
        case Ok(changed) => changed
        case Err(_) => before
  }

  /** A field without a default, or with a key that cannot be set, leaves the others alone. */
  lemma UnsetFieldIsSkipped(fields: seq<Field>, f: Field)
    requires f.default == None || '.' !in f.key || Blocked(Defaults(fields), Split(f.key))
    ensures Defaults(fields + [f]) == Defaults(fields)
  {
    assert (fields + [f])[..|fields|] == fields;
    if f.default.Some? { SetKeySucceedsIff(Defaults(fields), f.key, f.default.value); }
  }

  method SchemaDefaults(fields: seq<Field>) returns (modules: Fields)
    ensures modules == Defaults(fields)
  {
    var settings := new Settings(map[]);
    var i := 0;
    while i < |fields|
      invariant 0 <= i <= |fields|
      invariant fresh(settings)
      invariant settings.modules == Defaults(fields[..i])
    {
      assert fields[..i + 1][..i] == fields[..i];
      if fields[i].default.Some? {
        var _ := settings.Set(fields[i].key, fields[i].default.value);
      }
      i := i + 1;
    }
    assert fields[..i] == fields;
    modules := settings.modules;
  }

  /** Fields with a default have dotted keys none of which is a prefix of another. */
  ghost predicate Independent(fields: seq<Field>) {
    && (forall i :: 0 <= i < |fields| && fields[i].default.Some? ==> '.' in fields[i].key)
    && forall i, j :: 0 <= i < j < |fields| && fields[i].default.Some? && fields[j].default.Some?
         ==> Incomparable(Split(fields[i].key), Split(fields[j].key))
  }

  /** Only below a key that was set can there be a value that is not an object. */
  lemma {:induction false} BlocksOnlyBelowDefaults(fields: seq<Field>, q: Path)
    requires Blocks(Defaults(fields), q)
    ensures exists i :: 0 <= i < |fields| && fields[i].default.Some? && Split(fields[i].key) <= q
  {
    var n := |fields| - 1;
    var before := Defaults(fields[..n]);
    if Blocks(before, q) {
      BlocksOnlyBelowDefaults(fields[..n], q);
    } else {
      var p, v := Split(fields[n].key), fields[n].default.value;
      SetCreatesNoBlock(before, p, v, q);
    }
  }

  lemma SetCreatesNoBlock(fields: Fields, p: Path, v: Json, q: Path)
    requires SetPath(fields, p, v).Ok? && Blocks(SetPath(fields, p, v).value, q) && !Blocks(fields, q)
    ensures p <= q
  {
    if !(p <= q) {
      if q <= p {
        assert p[..|q|] == q && |q| < |p|;
        PrefixHoldsObject(fields, p, v, |q|);
      } else {
        SetFrames(fields, p, v, q);
      }
    }
  }

  /** Earlier defaults do not stand in the way of a later one. */
  lemma DefaultsLeaveRoom(fields: seq<Field>, n: nat, m: nat)
    requires n < |fields| && Independent(fields) && fields[n].default.Some?
    requires 0 < m <= |Split(fields[n].key)|
    ensures !Blocks(Defaults(fields[..n]), Split(fields[n].key)[..m])
  {
    var p := Split(fields[n].key);
    forall i | 0 <= i < n && fields[i].default.Some?
      ensures !(Split(fields[i].key) <= p[..m])
    {
      assert Incomparable(Split(fields[i].key), p);
      PrefixOfPrefix(Split(fields[i].key), p, m);
    }
    if Blocks(Defaults(fields[..n]), p[..m]) { BlocksOnlyBelowDefaults(fields[..n], p[..m]); }
  }

  lemma PrefixOfPrefix(a: Path, p: Path, m: nat)
    requires m <= |p|
    ensures a <= p[..m] ==> a <= p
  {
  }

  lemma DefaultIsSet(fields: seq<Field>, n: nat)
    requires n < |fields| && Independent(fields) && fields[n].default.Some?
    ensures SetKey(Defaults(fields[..n]), fields[n].key, fields[n].default.value).Ok?
  {
    var p, before := Split(fields[n].key), Defaults(fields[..n]);
    SetKeySucceedsIff(before, fields[n].key, fields[n].default.value);
    forall m | 0 < m < |p| ensures !Blocks(before, p[..m]) { DefaultsLeaveRoom(fields, n, m); }
  }

  /** With independent keys every declared default reads back from the built defaults. */
  lemma {:induction false} DefaultsReadBack(fields: seq<Field>, i: nat)
    requires Independent(fields) && i < |fields| && fields[i].default.Some?
    ensures GetPath(Defaults(fields), Split(fields[i].key)) == fields[i].default
  {
    var n := |fields| - 1;
    var p, before := Split(fields[i].key), Defaults(fields[..n]);
    assert fields[..n + 1] == fields;
    if fields[n].default.Some? { DefaultIsSet(fields, n); }
    if i == n {
      GetAfterSet(before, p, fields[n].default.value, []);
      assert p + [] == p;
    } else {
      DefaultsReadBack(fields[..n], i);
      if fields[n].default.Some? {
        SetFrames(before, Split(fields[n].key), fields[n].default.value, p);
      }
    }
  }

  /** The loaded modules, completed with the default modules they lack. */
  function Merged(modules: Fields, defaults: Fields): (r: Fields)
    ensures r.Keys == modules.Keys + defaults.Keys
  {
    defaults + modules
  }

  /** `get_with_schema_default`. */
  function GetWithDefault(modules: Fields, defaults: Fields, path: Path): Option<Json> {
    var own := GetPath(modules, path);
    if own.Some? then own else GetPath(defaults, path)
  }

  /** An own value wins over the default; a key without one reads the default. */
  lemma OwnValueWins(modules: Fields, defaults: Fields, k: string, v: Json, j: string)
    requires SetKey(modules, k, v).Ok?
    ensures GetWithDefault(SetKey(modules, k, v).value, defaults, Split(k)) == Some(v)
    ensures GetPath(modules, Split(j)).Some? ==> GetWithDefault(modules, defaults, Split(j)) == GetPath(modules, Split(j))
    ensures GetPath(modules, Split(j)).None? ==> GetWithDefault(modules, defaults, Split(j)) == GetPath(defaults, Split(j))
  {
    KeyLaws(modules, k, v, j);
  }

  /** Merging missing modules at load time changes no answer of `get_with_schema_default`. */
  lemma MergeIsInvisible(modules: Fields, defaults: Fields, path: Path)
    ensures GetWithDefault(Merged(modules, defaults), defaults, path) == GetWithDefault(modules, defaults, path)
  {
    var merged := Merged(modules, defaults);
    assert path[0] in merged ==> merged[path[0]] == if path[0] in modules then modules[path[0]] else defaults[path[0]];
  }
}
