/** The wire side of the schema layer: JSON values, the per-schema table
    that maps each Python field name to its wire alias, and the generic
    by-alias encoder and decoder every schema record is built on.

    Encoding mirrors `model_dump(by_alias=True)`: every field of the table
    becomes one key, its alias, and a later field overwrites an earlier one
    with the same alias, as building a Python dict does. Decoding mirrors
    `model_validate`: each field is looked up under its alias and, when the
    model sets `populate_by_name=True`, under its own name as a fallback;
    keys that belong to no field are ignored. */
module Wire {
  import opened Wrappers

  /** A JSON value. Objects are maps, so key order never matters, as with
      Python dict equality. Numbers are integers only: a JSON number with a
      fraction or an exponent has no value here. */
  datatype Value =
    | Null
    | Bool(b: bool)
    | Int(i: int)
    | Str(s: string)
    | Arr(items: seq<Value>)
    | Obj(fields: map<string, Value>)

  type Object = map<string, Value>

  /** One step of the location of a decoding error: an object key or a list index. */
  datatype Segment = Key(key: string) | Index(index: nat)

  type Path = seq<Segment>

  datatype ErrorKind =
    | Missing    // a required key is absent
    | WrongType  // the key holds a value of the wrong JSON kind
    | Rejected   // a string refused by a format validator (EmailStr, HttpUrl)

  /** A schema validation error: what went wrong and where. */
  datatype DecodeError = DecodeError(kind: ErrorKind, path: Path)

  /** The error `e`, raised inside the value found under `seg`. */
  function Under(seg: Segment, e: DecodeError): (r: DecodeError)
    ensures r.kind == e.kind && |r.path| == |e.path| + 1 && r.path[0] == seg && r.path[1..] == e.path
  {
    e.(path := [seg] + e.path)
  }

  /** One row of a schema's alias table. A field declared without
      `Field(alias=...)` has its own name as alias. */
  datatype Field = Field(name: string, alias: string)

  /** No two fields of the table share a wire key. */
  predicate DistinctAliases(t: seq<Field>) {
    forall i, j :: 0 <= i < j < |t| ==> t[i].alias != t[j].alias
  }

  /** Every wire key equals its field name: the model declares no alias. */
  predicate Unaliased(t: seq<Field>) {
    forall i :: 0 <= i < |t| ==> t[i].alias == t[i].name
  }

  function AliasKeys(t: seq<Field>): set<string> {
    set i | 0 <= i < |t| :: t[i].alias
  }

  /** The keys of a table whose aliases, in order, are `keys`. */
  lemma AliasKeysListed(t: seq<Field>, keys: seq<string>)
    requires |keys| == |t| && forall i :: 0 <= i < |t| ==> t[i].alias == keys[i]
    ensures AliasKeys(t) == set k | k in keys
  {
    forall k | k in keys ensures k in AliasKeys(t) {
      var i :| 0 <= i < |keys| && keys[i] == k;
      assert t[i].alias == k;
    }
  }

  /** The keys of a non-empty table: the first alias and those of the rest. */
  lemma AliasKeysCons(t: seq<Field>)
    requires |t| > 0
    ensures AliasKeys(t) == {t[0].alias} + AliasKeys(t[1..])
  {
    forall a | a in AliasKeys(t) ensures a in {t[0].alias} + AliasKeys(t[1..]) {
      var i :| 0 <= i < |t| && t[i].alias == a;
      assert i == 0 || t[1..][i - 1].alias == a;
    }
    forall a | a in AliasKeys(t[1..]) ensures a in AliasKeys(t) {
      var i :| 0 <= i < |t| - 1 && t[1..][i].alias == a;
      assert t[i + 1].alias == a;
    }
  }

  /** The wire object of a record whose fields, in table order, hold `vals`. */
  function Encode(t: seq<Field>, vals: seq<Value>): (m: Object)
    requires |vals| == |t|
    ensures m.Keys == AliasKeys(t)
    decreases |t|
  {
    if |t| == 0 then map[]
    else
      AliasKeysCons(t);
      map[t[0].alias := vals[0]] + Encode(t[1..], vals[1..])
  }

  /** A key that no later field reuses holds the value of its field. */
  lemma {:induction false} EncodeField(t: seq<Field>, vals: seq<Value>, i: nat)
    requires |vals| == |t| && i < |t|
    requires forall j :: i < j < |t| ==> t[j].alias != t[i].alias
    ensures Encode(t, vals)[t[i].alias] == vals[i]
    decreases |t|
  {
    var rest := Encode(t[1..], vals[1..]);
    if i == 0 {
      assert t[0].alias !in AliasKeys(t[1..]) by {
        forall k | 0 <= k < |t| - 1 ensures t[1..][k].alias != t[0].alias {
          assert t[1..][k] == t[k + 1];
        }
      }
    } else {
      assert t[1..][i - 1] == t[i];
      forall j | i - 1 < j < |t| - 1 ensures t[1..][j].alias != t[1..][i - 1].alias {
        assert t[1..][j] == t[j + 1];
      }
      EncodeField(t[1..], vals[1..], i - 1);
      assert vals[1..][i - 1] == vals[i];
    }
  }

  /** The part of an object whose keys lie in `keys`. */
  function Project(obj: Object, keys: set<string>): (r: Object)
    ensures r.Keys == obj.Keys * keys
    ensures forall k :: k in r ==> r[k] == obj[k]
  {
    map k | k in obj.Keys * keys :: obj[k]
  }

  /** The value of one field of an incoming object: its alias first, then,
      for a model with `populate_by_name=True`, its own name. */
  function Lookup(obj: Object, f: Field, byName: bool): Option<Value> {
    if f.alias in obj then Some(obj[f.alias])
    else if byName && f.name in obj then Some(obj[f.name])
    else None
  }

  /** The values of all fields of the table, in table order, or the error
      for the first field that is absent. */
  function DecodeFields(t: seq<Field>, obj: Object, byName: bool): (r: Result<seq<Value>, DecodeError>)
    ensures r.Success? <==> forall i :: 0 <= i < |t| ==> Lookup(obj, t[i], byName).Some?
    ensures r.Success? ==>
              |r.value| == |t| && forall i :: 0 <= i < |t| ==> Lookup(obj, t[i], byName) == Some(r.value[i])
    ensures r.Failure? ==>
              exists i :: (0 <= i < |t| && Lookup(obj, t[i], byName).None? &&
                           r.error == DecodeError(Missing, [Key(t[i].alias)]) &&
                           forall j :: 0 <= j < i ==> Lookup(obj, t[j], byName).Some?)
    decreases |t|
  {
    if |t| == 0 then Success([])
    else
      match Lookup(obj, t[0], byName)
      case None => Failure(DecodeError(Missing, [Key(t[0].alias)]))
      case Some(v) =>
        var rest := DecodeFields(t[1..], obj, byName);
        assert forall i :: 1 <= i < |t| ==> t[1..][i - 1] == t[i];
        match rest
        case Failure(e) =>
          ghost var k :| 0 <= k < |t| - 1 && Lookup(obj, t[1..][k], byName).None? &&
            e == DecodeError(Missing, [Key(t[1..][k].alias)]) &&
            forall j :: 0 <= j < k ==> Lookup(obj, t[1..][j], byName).Some?;
          assert Lookup(obj, t[k + 1], byName).None?;
          Failure(e)
        case Success(vs) => Success([v] + vs)
  }

  /** Lookups that all succeed give the decoded values. */
  lemma DecodeFieldsOf(t: seq<Field>, obj: Object, byName: bool, vals: seq<Value>)
    requires |vals| == |t| && forall i :: 0 <= i < |t| ==> Lookup(obj, t[i], byName) == Some(vals[i])
    ensures DecodeFields(t, obj, byName) == Success(vals)
  {
    var r := DecodeFields(t, obj, byName);
    assert r.value == vals;
  }

  /** Encoding by alias and decoding again gives back every field value,
      whichever lookup mode the model uses, when the aliases are distinct. */
  lemma DecodeEncodeFields(t: seq<Field>, vals: seq<Value>, byName: bool)
    requires |vals| == |t| && DistinctAliases(t)
    ensures DecodeFields(t, Encode(t, vals), byName) == Success(vals)
  {
    var m := Encode(t, vals);
    forall i | 0 <= i < |t| ensures Lookup(m, t[i], byName) == Some(vals[i]) {
      assert t[i].alias in AliasKeys(t);
      EncodeField(t, vals, i);
    }
    var r := DecodeFields(t, m, byName);
    assert r.value == vals;
  }

  /** A decoded object of a payload that carries every alias re-encodes to
      the same object restricted to the schema's keys: no key is invented,
      none is lost, every value is the one received. */
  lemma EncodeDecodedFields(t: seq<Field>, obj: Object, byName: bool)
    requires DistinctAliases(t) && AliasKeys(t) <= obj.Keys
    ensures DecodeFields(t, obj, byName).Success?
    ensures Encode(t, DecodeFields(t, obj, byName).value) == Project(obj, AliasKeys(t))
  {
    assert forall i :: 0 <= i < |t| ==> Lookup(obj, t[i], byName) == Some(obj[t[i].alias]) by {
      forall i | 0 <= i < |t| ensures Lookup(obj, t[i], byName) == Some(obj[t[i].alias]) {
        assert t[i].alias in AliasKeys(t);
      }
    }
    var vals := DecodeFields(t, obj, byName).value;
    EncodeIsProjection(t, vals, obj);
  }

  /** The values decoded from an object that carries every alias encode
      back to that object cut down to the table's keys. */
  lemma ReencodeFields(t: seq<Field>, obj: Object, byName: bool, vals: seq<Value>)
    requires DistinctAliases(t) && AliasKeys(t) <= obj.Keys
    requires DecodeFields(t, obj, byName) == Success(vals)
    ensures Encode(t, vals) == Project(obj, AliasKeys(t))
  {
    EncodeDecodedFields(t, obj, byName);
  }

  /** Field values read from `obj` by alias encode to `obj` cut down to the
      table's keys. */
  lemma EncodeIsProjection(t: seq<Field>, vals: seq<Value>, obj: Object)
    requires |vals| == |t| && DistinctAliases(t) && AliasKeys(t) <= obj.Keys
    requires forall i :: 0 <= i < |t| ==> vals[i] == obj[t[i].alias]
    ensures Encode(t, vals) == Project(obj, AliasKeys(t))
  {
    var m := Encode(t, vals);
    var p := Project(obj, AliasKeys(t));
    assert m.Keys == p.Keys;
    forall k | k in m ensures m[k] == p[k] {
      EncodedKey(t, vals, k);
    }
  }

  /** With distinct aliases, an encoded key holds the value of the one
      field it is the alias of. */
  lemma EncodedKey(t: seq<Field>, vals: seq<Value>, k: string)
    requires |vals| == |t| && DistinctAliases(t) && k in AliasKeys(t)
    ensures exists i :: 0 <= i < |t| && t[i].alias == k && Encode(t, vals)[k] == vals[i]
  {
    var i :| 0 <= i < |t| && t[i].alias == k;
    EncodeField(t, vals, i);
  }

  /** Whatever an encoded key holds is the value of some field with that alias. */
  lemma {:induction false} EncodedFromSomeField(t: seq<Field>, vals: seq<Value>, a: string)
    requires |vals| == |t| && a in AliasKeys(t)
    ensures exists k :: 0 <= k < |t| && t[k].alias == a && Encode(t, vals)[a] == vals[k]
    decreases |t|
  {
    var rest := Encode(t[1..], vals[1..]);
    AliasKeysCons(t);
    if a in rest.Keys {
      EncodedFromSomeField(t[1..], vals[1..], a);
      var k :| 0 <= k < |t| - 1 && t[1..][k].alias == a && rest[a] == vals[1..][k];
      assert t[k + 1].alias == a && vals[k + 1] == vals[1..][k];
    }
  }

  /** When a later field shares the alias of field `i`, the encoded key holds
      the value of a field after `i`. */
  lemma {:induction false} EncodeShadowed(t: seq<Field>, vals: seq<Value>, i: nat, j: nat)
    requires |vals| == |t| && i < j < |t| && t[i].alias == t[j].alias
    ensures exists k :: i < k < |t| && Encode(t, vals)[t[i].alias] == vals[k]
    decreases |t|
  {
    var a := t[i].alias;
    var rest := Encode(t[1..], vals[1..]);
    AliasKeysCons(t);
    assert t[1..][j - 1] == t[j];
    assert a in AliasKeys(t[1..]);
    if i == 0 {
      EncodedFromSomeField(t[1..], vals[1..], a);
      var k :| 0 <= k < |t| - 1 && t[1..][k].alias == a && rest[a] == vals[1..][k];
      assert vals[1..][k] == vals[k + 1];
    } else {
      assert t[1..][i - 1] == t[i];
      EncodeShadowed(t[1..], vals[1..], i - 1, j - 1);
      var k :| i - 1 < k < |t| - 1 && rest[a] == vals[1..][k];
      assert vals[1..][k] == vals[k + 1];
    }
  }

  /** Distinct aliases are also necessary: with a repeated alias some record
      does not survive encoding and decoding. */
  lemma RoundTripNeedsDistinctAliases(t: seq<Field>, byName: bool)
    requires !DistinctAliases(t)
    ensures exists vals :: |vals| == |t| && DecodeFields(t, Encode(t, vals), byName) != Success(vals)
  {
    var i, j :| 0 <= i < j < |t| && t[i].alias == t[j].alias;
    ShadowedFieldLost(t, i, j, byName);
    assert |Marked(|t|, i)| == |t|;
  }

  /** `n` nulls, except an integer at position `i`. */
  function Marked(n: nat, i: nat): (vals: seq<Value>)
    ensures |vals| == n && forall k :: 0 <= k < n ==> vals[k] == (if k == i then Int(1) else Null)
  {
    seq(n, k => if k == i then Int(1) else Null)
  }

  /** The field shadowed by a later one with the same alias reads back the
      later field's value. */
  lemma ShadowedFieldLost(t: seq<Field>, i: nat, j: nat, byName: bool)
    requires i < j < |t| && t[i].alias == t[j].alias
    ensures DecodeFields(t, Encode(t, Marked(|t|, i)), byName) != Success(Marked(|t|, i))
  {
    var vals := Marked(|t|, i);
    var m := Encode(t, vals);
    EncodeShadowed(t, vals, i, j);
    var k :| i < k < |t| && m[t[i].alias] == vals[k];
    assert Lookup(m, t[i], byName) == Some(Null);
    var r := DecodeFields(t, m, byName);
    if r.Success? {
      assert r.value[i] == Null != vals[i];
    }
  }

  /* Kind checks applied to one decoded field value. */

  function AsStr(v: Value, p: Path): (r: Result<string, DecodeError>)
    ensures r.Success? <==> v.Str?
    ensures r.Success? ==> v == Str(r.value)
  {
    if v.Str? then Success(v.s) else Failure(DecodeError(WrongType, p))
  }

  function AsInt(v: Value, p: Path): (r: Result<int, DecodeError>)
    ensures r.Success? <==> v.Int?
    ensures r.Success? ==> v == Int(r.value)
  {
    if v.Int? then Success(v.i) else Failure(DecodeError(WrongType, p))
  }

  /** A `str | None` field: JSON null is None. */
  function AsOptStr(v: Value, p: Path): (r: Result<Option<string>, DecodeError>)
    ensures r.Success? <==> v.Str? || v.Null?
    ensures r.Success? ==> v == OptStr(r.value)
  {
    match v
    case Null => Success(None)
    case Str(s) => Success(Some(s))
    case _ => Failure(DecodeError(WrongType, p))
  }

  /** An `int | None` field: JSON null is None. */
  function AsOptInt(v: Value, p: Path): (r: Result<Option<int>, DecodeError>)
    ensures r.Success? <==> v.Int? || v.Null?
    ensures r.Success? ==> v == OptInt(r.value)
  {
    match v
    case Null => Success(None)
    case Int(n) => Success(Some(n))
    case _ => Failure(DecodeError(WrongType, p))
  }

  function AsObj(v: Value, p: Path): (r: Result<Object, DecodeError>)
    ensures r.Success? <==> v.Obj?
    ensures r.Success? ==> v == Obj(r.value)
  {
    if v.Obj? then Success(v.fields) else Failure(DecodeError(WrongType, p))
  }

  /** A string that must also pass a format validator, which keeps its
      normal form. */
  function AsFormatted(v: Value, norm: string -> Option<string>, p: Path): (r: Result<string, DecodeError>)
    ensures r.Success? <==> v.Str? && norm(v.s).Some?
    ensures r.Success? ==> Str(r.value) == Normalised(v, norm) && r.value == norm(v.s).value
    ensures r.Failure? ==> r.error == DecodeError(if v.Str? then Rejected else WrongType, p)
  {
    if !v.Str? then Failure(DecodeError(WrongType, p))
    else
      match norm(v.s)
      case None => Failure(DecodeError(Rejected, p))
      case Some(s) => Success(s)
  }

  /** An optional string that, when present, must pass a format validator,
      which keeps its normal form. */
  function AsOptFormatted(v: Value, norm: string -> Option<string>, p: Path): (r: Result<Option<string>, DecodeError>)
    ensures r.Success? <==> v.Null? || (v.Str? && norm(v.s).Some?)
    ensures r.Success? ==> OptStr(r.value) == Normalised(v, norm)
  {
    match v
    case Null => Success(None)
    case Str(s) =>
      (match norm(s)
       case None => Failure(DecodeError(Rejected, p))
       case Some(t) => Success(Some(t)))
    case _ => Failure(DecodeError(WrongType, p))
  }

  /** A value as a format-validated field stores it: a string the validator
      accepts becomes its normal form; any other value is left as it is. */
  function Normalised(v: Value, norm: string -> Option<string>): Value {
    if v.Str? && norm(v.s).Some? then Str(norm(v.s).value) else v
  }

  /** The string is already in the validator's normal form. */
  predicate Normal(norm: string -> Option<string>, s: string) {
    norm(s) == Some(s)
  }

  /** Normalising twice changes nothing: the validator accepts its own
      output unchanged. */
  ghost predicate Idempotent(norm: string -> Option<string>) {
    forall s :: norm(s).Some? ==> Normal(norm, norm(s).value)
  }

  /** The wire form of a nullable string: None dumps as JSON null. */
  function OptStr(o: Option<string>): Value {
    match o
    case None => Null
    case Some(s) => Str(s)
  }

  /** The wire form of a nullable int: None dumps as JSON null. */
  function OptInt(o: Option<int>): Value {
    match o
    case None => Null
    case Some(n) => Int(n)
  }

  /** A decoding result of a nested record, its error located under `key`. */
  function Within<T>(key: string, r: Result<T, DecodeError>): (r': Result<T, DecodeError>)
    ensures r'.Success? <==> r.Success?
    ensures r.Success? ==> r' == r
    ensures r.Failure? ==> r'.error.path == [Key(key)] + r.error.path && r'.error.kind == r.error.kind
  {
    match r
    case Success(v) => Success(v)
    case Failure(e) => Failure(Under(Key(key), e))
  }

  lemma OptStrRoundTrip(o: Option<string>, p: Path)
    ensures AsOptStr(OptStr(o), p) == Success(o)
  {
  }

  lemma OptIntRoundTrip(o: Option<int>, p: Path)
    ensures AsOptInt(OptInt(o), p) == Success(o)
  {
  }

  lemma OptFormattedRoundTrip(o: Option<string>, norm: string -> Option<string>, p: Path)
    requires o.Some? ==> Normal(norm, o.value)
    ensures AsOptFormatted(OptStr(o), norm, p) == Success(o)
  {
  }

  /** The location of the field at position `i` of a table. */
  function At(t: seq<Field>, i: nat): Path
    requires i < |t|
  {
    [Key(t[i].alias)]
  }

  /** A JSON array of records: each element dumped by `enc`, in order. */
  function EncodeList<T>(xs: seq<T>, enc: T -> Object): (r: seq<Value>)
    ensures |r| == |xs| && forall i :: 0 <= i < |xs| ==> r[i] == Obj(enc(xs[i]))
  {
    seq(|xs|, i requires 0 <= i < |xs| => Obj(enc(xs[i])))
  }

  /** Parses the elements of a JSON array, the first of which sits at
      position `start` of the whole array. The first element that is not an
      object, or that `dec` refuses, fails the whole list; its index heads
      the error path. */
  function DecodeList<T>(items: seq<Value>, start: nat, dec: Object -> Result<T, DecodeError>): (r: Result<seq<T>, DecodeError>)
    ensures r.Success? ==> |r.value| == |items|
    ensures r.Failure? ==> |r.error.path| > 0 && r.error.path[0].Index? && start <= r.error.path[0].index < start + |items|
    decreases |items|
  {
    if |items| == 0 then Success([])
    else
      var obj :- AsObj(items[0], [Index(start)]);
      var first :- AtIndex(start, dec(obj));
      var rest :- DecodeList(items[1..], start + 1, dec);
      Success([first] + rest)
  }

  /** A decoding result of an array element, its error located under index `i`. */
  function AtIndex<T>(i: nat, r: Result<T, DecodeError>): (r': Result<T, DecodeError>)
    ensures r'.Success? <==> r.Success?
    ensures r.Success? ==> r' == r
    ensures r.Failure? ==> r'.error == Under(Index(i), r.error)
  {
    match r
    case Success(v) => Success(v)
    case Failure(e) => Failure(Under(Index(i), e))
  }

  /** A list parses exactly when every element is an object `dec` accepts,
      and then element i of the result is what `dec` made of item i. */
  lemma {:induction false} DecodeListElements<T>(items: seq<Value>, start: nat, dec: Object -> Result<T, DecodeError>)
    ensures DecodeList(items, start, dec).Success? <==>
              forall i :: 0 <= i < |items| ==> items[i].Obj? && dec(items[i].fields).Success?
    ensures DecodeList(items, start, dec).Success? ==>
              forall i :: 0 <= i < |items| ==> dec(items[i].fields) == Success(DecodeList(items, start, dec).value[i])
    decreases |items|
  {
    if |items| > 0 {
      DecodeListElements(items[1..], start + 1, dec);
      assert forall i :: 1 <= i < |items| ==> items[1..][i - 1] == items[i];
    }
  }

  /** When `dec` inverts `enc` on every element, the list survives a dump
      and a parse with its order kept. */
  lemma {:induction false} DecodeEncodeList<T>(xs: seq<T>, start: nat, enc: T -> Object, dec: Object -> Result<T, DecodeError>)
    requires forall i :: 0 <= i < |xs| ==> dec(enc(xs[i])) == Success(xs[i])
    ensures DecodeList(EncodeList(xs, enc), start, dec) == Success(xs)
    decreases |xs|
  {
    if |xs| > 0 {
      DecodeEncodeList(xs[1..], start + 1, enc, dec);
      assert EncodeList(xs, enc)[1..] == EncodeList(xs[1..], enc);
      assert xs == [xs[0]] + xs[1..];
    }
  }

  /** The string validators pydantic applies, taken as given: the model does
      not reimplement them. Each returns the normal form of a string it
      accepts (EmailStr lower-cases the domain and drops a display name;
      `str()` of an HttpUrl may add a trailing slash) and None for one it
      rejects. */
  datatype Formats = Formats(email: string -> Option<string>, httpUrl: string -> Option<string>)

  /** Both validators leave their own output unchanged, as pydantic's do. */
  ghost predicate Canonical(fm: Formats) {
    Idempotent(fm.email) && Idempotent(fm.httpUrl)
  }

  /** Replacing one field's value changes only that field's key in the
      encoded object. */
  lemma EncodeReplaced(t: seq<Field>, vals: seq<Value>, i: nat, w: Value)
    requires |vals| == |t| && i < |t| && DistinctAliases(t)
    ensures Encode(t, vals[i := w]) == Encode(t, vals)[t[i].alias := w]
  {
    var a := Encode(t, vals[i := w]);
    var b := Encode(t, vals)[t[i].alias := w];
    assert a.Keys == b.Keys by {
      assert t[i].alias in AliasKeys(t);
    }
    forall k | k in a ensures a[k] == b[k] {
      EncodedKey(t, vals[i := w], k);
      EncodedKey(t, vals, k);
    }
  }
}
