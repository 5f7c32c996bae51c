/** Decoded JSON payloads, and the Python operations the row builders apply to
    them: subscripting (`x['key']`, `x[0]`), `len()` and iteration. */
module Json {

  import opened Base

  /** A value as `response.json()` returns it. Numbers with a fraction or an
      exponent become Python floats; they are carried here as exact reals, which is
      harmless because the script only copies them. */
  datatype Json =
    | JNull
    | JBool(b: bool)
    | JInt(i: int)
    | JFloat(f: real)
    | JStr(s: string)
    | JArr(items: seq<Json>)
    | JObj(fields: map<string, Json>)

  /** One subscript of a chain such as `client['mapInfo']['floorRefId']`. */
  datatype Sel = Key(name: string) | Idx(index: int)

  /** A chain of subscripts applied left to right. */
  type Path = seq<Sel>

  /** `v[sel]` as Python evaluates it on a decoded JSON value: a string key works on
      an object, an integer index (counting from the end when negative) on a list or
      a string, and only these three exceptions can come out. */
  function Subscript(v: Json, sel: Sel): Result<Json, PyError>
  {
    match sel
    case Key(k) =>
      (match v
       case JObj(m) => if k in m then Ok(m[k]) else Err(KeyError)
       case _ => Err(TypeError))
    case Idx(i) =>
      (match v
       case JArr(xs) =>
         if -|xs| <= i < |xs| then Ok(xs[if i < 0 then i + |xs| else i]) else Err(IndexError)
       case JStr(s) =>
         if -|s| <= i < |s| then Ok(JStr([s[if i < 0 then i + |s| else i]])) else Err(IndexError)
       // the keys of a decoded JSON object are strings, so an integer key is missing
       case JObj(_) => Err(KeyError)
       case _ => Err(TypeError))
  }

  /** Which exception `v[sel]` raises, and what it gives when it does not. */
  lemma SubscriptCases(v: Json, sel: Sel)
    ensures var r := Subscript(v, sel);
            r.Err? ==> r.error == KeyError || r.error == TypeError || r.error == IndexError
    ensures Subscript(v, sel) == Err(TypeError) <==> !v.JObj? && (sel.Key? || !(v.JArr? || v.JStr?))
    ensures Subscript(v, sel) == Err(KeyError) <==> v.JObj? && (sel.Idx? || sel.name !in v.fields)
    ensures var r := Subscript(v, sel);
            r.Ok? && v.JObj? ==> sel.Key? && sel.name in v.fields && r.value == v.fields[sel.name]
    ensures var r := Subscript(v, sel);
            r.Ok? && v.JArr? ==> r.value in v.items
    ensures var r := Subscript(v, sel);
            r.Ok? && v.JStr? ==> r.value.JStr? && |r.value.s| == 1 && r.value.s[0] in v.s
  {
  }

  /** An index counted from the end names the same element as its non-negative
      counterpart: `xs[i - len(xs)]` is `xs[i]`. */
  lemma NegativeIndexWraps(v: Json, i: int)
    requires v.JArr? || v.JStr?
    requires Len(v).Ok? && 0 <= i < Len(v).value
    ensures Subscript(v, Idx(i - Len(v).value)) == Subscript(v, Idx(i))
    ensures Subscript(v, Idx(i)).Ok?
  {
  }

  /** `v[p0][p1]...`: the first failing subscript raises. */
  function Lookup(v: Json, path: Path): Result<Json, PyError>
    decreases |path|
  {
    if path == [] then Ok(v)
    else match Subscript(v, path[0])
      case Err(e) => Err(e)
      case Ok(w) => Lookup(w, path[1..])
  }

  /** A chain of two subscripts is the second applied to the result of the first. */
  lemma LookupPair(v: Json, first: Sel)
    ensures forall second :: Lookup(v, [first, second]) ==
              if Subscript(v, first).Err? then Err(Subscript(v, first).error)
              else Subscript(Subscript(v, first).value, second)
  {
    forall second
      ensures Lookup(v, [first, second]) ==
                if Subscript(v, first).Err? then Err(Subscript(v, first).error)
                else Subscript(Subscript(v, first).value, second)
    {
      var path := [first, second];
      assert path[0] == first && path[1..] == [second];
      assert [second][0] == second && [second][1..] == [];
      if Subscript(v, first).Ok? {
        var w := Subscript(v, first).value;
        assert Lookup(v, path) == Lookup(w, [second]);
        if Subscript(w, second).Ok? {
          assert Lookup(w, [second]) == Lookup(Subscript(w, second).value, []);
        }
      }
    }
  }

  /** The values of a list display `[v[path0], v[path1], ...]`, evaluated left to
      right, so that the first failing element decides the exception. */
  function LookupAll(v: Json, paths: seq<Path>): (r: Result<seq<Json>, PyError>)
    ensures r.Ok? <==> forall k :: 0 <= k < |paths| ==> Lookup(v, paths[k]).Ok?
    ensures r.Ok? ==> |r.value| == |paths|
    ensures r.Ok? ==> forall k :: 0 <= k < |paths| ==> r.value[k] == Lookup(v, paths[k]).value
    ensures r.Err? ==> exists k :: 0 <= k < |paths| && Lookup(v, paths[k]) == Err(r.error)
                          && forall j :: 0 <= j < k ==> Lookup(v, paths[j]).Ok?
  {
    if paths == [] then Ok([])
    else match Lookup(v, paths[0])
      case Err(e) => Err(e)
      case Ok(x) =>
        match LookupAll(v, paths[1..])
        case Err(e) =>
          ghost var k :| 0 <= k < |paths[1..]| && Lookup(v, paths[1..][k]) == Err(e)
                         && forall j :: 0 <= j < k ==> Lookup(v, paths[1..][j]).Ok?;
          assert Lookup(v, paths[k + 1]) == Err(e);
          Err(e)
        case Ok(xs) => Ok([x] + xs)
  }

  /** `len(v)`: defined on lists, strings and objects only; for a list or a string it
      is the number of non-negative indices subscripting accepts, for an object its
      number of keys. */
  function Len(v: Json): Result<nat, PyError>
  {
    match v
    case JArr(xs) => Ok(|xs|)
    case JStr(s) => Ok(|s|)
    case JObj(m) => Ok(|m|)
    case _ => Err(TypeError)
  }

  /** The elements a `for x in v:` loop visits, where the loop body subscripts each
      element with a string key. Iterating an object visits its keys and iterating a
      string its characters; subscripting those with a string key raises TypeError,
      so only an empty object or string gets through. Numbers, booleans and null are
      not iterable. */
  function Records(v: Json): Result<seq<Json>, PyError>
  {
    match v
    case JArr(xs) => Ok(xs)
    case JObj(m) => if |m| == 0 then Ok([]) else Err(TypeError)
    case JStr(s) => if s == [] then Ok([]) else Err(TypeError)
    case _ => Err(TypeError)
  }

  /** `len()` works on lists, strings and objects only; for a list or a string it is
      the number of non-negative indices subscripting accepts, for an object its
      number of keys. */
  lemma LenCounts(v: Json)
    ensures Len(v).Ok? <==> v.JArr? || v.JStr? || v.JObj?
    ensures Len(v).Err? ==> Len(v).error == TypeError
    ensures Len(v).Ok? && (v.JArr? || v.JStr?) ==>
              forall i :: Subscript(v, Idx(i)).Ok? <==> 0 - Len(v).value as int <= i < Len(v).value
    ensures Len(v).Ok? && v.JObj? ==> Len(v).value == |v.fields.Keys|
  {
  }

  /** A record loop gets through a list, visiting `v[0]`, `v[1]`, ... in order, and
      through an empty string or object, visiting nothing; anything else raises
      TypeError. It visits `len(v)` elements. */
  lemma RecordsVisits(v: Json)
    ensures Records(v).Ok? <==> v.JArr? || Len(v) == Ok(0)
    ensures Records(v).Err? ==> Records(v).error == TypeError
    ensures Records(v).Ok? ==> Len(v) == Ok(|Records(v).value|)
    ensures Records(v).Ok? ==>
              forall i :: 0 <= i < |Records(v).value| ==> Subscript(v, Idx(i)) == Ok(Records(v).value[i])
  {
  }
}
