/** Option handling of the JavaScript prototype: the `defaultOptions`
    tree, `checkOptions`, which fills the caller's options in from it, and
    `setOptions`, which prepares the options before and after that. */
module JsOptions {
  import opened JsValues

  /** A node of the defaults tree, by what `checkOptions` tests of it: an
      array, a nested object, or anything else. */
  datatype Default = Scalar(v: JsValue) | List(items: seq<JsValue>) | Group(fields: seq<Field>)

  /** An own property of a defaults object, in declaration order. */
  datatype Field = Field(key: string, value: Default)

  /** `defaultOptions.q`. */
  const QuestionFields: seq<Field> :=
    [Field("name", Scalar(Str(""))), Field("type", Scalar(Str("PTR"))), Field("class", Scalar(Num(0x8001)))]

  /** `defaultOptions`; note the key `nsme`. */
  const DefaultFields: seq<Field> :=
    [Field("nsme", Scalar(Str(""))), Field("port", Scalar(Num(5353))), Field("ip", Scalar(Str("224.0.0.251"))),
     Field("reuseAddr", Scalar(Bool(true))), Field("interfaces", List([])), Field("type", Scalar(Str("udp4"))),
     Field("q", Group(QuestionFields)), Field("timeout", Scalar(Num(4))), Field("broadcast", Scalar(Bool(true))),
     Field("multicast", Scalar(Bool(true))), Field("multicastTTL", Scalar(Num(64))), Field("ttl", Scalar(Num(64)))]

  predicate DistinctKeys(fs: seq<Field>) {
    forall i, j :: 0 <= i < j < |fs| ==> fs[i].key != fs[j].key
  }

  /** Distinct keys, none of them `length` (which an array answers from
      its elements rather than from a property). */
  predicate PlainKeys(fs: seq<Field>) {
    DistinctKeys(fs) && forall i :: 0 <= i < |fs| ==> fs[i].key != "length"
  }

  /** A defaults object as an object literal writes it: distinct keys,
      none of them `length`, plain values defined and not objects, nested
      objects non-empty and well formed themselves. */
  predicate WellFormed(fs: seq<Field>)
    decreases fs
  {
    PlainKeys(fs) &&
    forall i :: 0 <= i < |fs| ==>
      match fs[i].value
      case Scalar(v) => !v.Undefined? && !IsObject(v)
      case List(_) => true
      case Group(gs) => gs != [] && WellFormed(gs)
  }

  lemma DefaultsWellFormed()
    ensures WellFormed(QuestionFields) && WellFormed(DefaultFields)
  {
    DefaultsPlainKeys();
    var fs := DefaultFields;
    assert fs[6].value.fields == QuestionFields;
  }

  lemma DefaultsPlainKeys()
    ensures PlainKeys(QuestionFields) && PlainKeys(DefaultFields)
  {
    QuestionWellFormed();
    DefaultKeysDistinct();
    NotADefaultKey("length");
  }

  lemma QuestionWellFormed()
    ensures WellFormed(QuestionFields)
  {
    var qs := QuestionFields;
    assert |qs[0].key| == 4 && |qs[1].key| == 4 && |qs[2].key| == 5 && qs[0].key[0] == 'n' && qs[1].key[0] == 't';
  }

  /** A key's length with its first two letters (the first twice for a
      one-letter key): enough to tell the default keys apart. */
  function Shape(k: string): (int, char, char)
    requires k != []
  {
    (|k|, k[0], if |k| > 1 then k[1] else k[0])
  }

  /** The shapes of the default keys, in order; no two agree. */
  function KeyShapes(): seq<(int, char, char)> {
    [(4, 'n', 's'), (4, 'p', 'o'), (2, 'i', 'p'), (9, 'r', 'e'), (10, 'i', 'n'), (4, 't', 'y'), (1, 'q', 'q'),
     (7, 't', 'i'), (9, 'b', 'r'), (9, 'm', 'u'), (12, 'm', 'u'), (3, 't', 't')]
  }

  lemma DefaultKeyShapes()
    ensures |DefaultFields| == |KeyShapes()|
    ensures forall i :: 0 <= i < |DefaultFields| ==>
      DefaultFields[i].key != [] && Shape(DefaultFields[i].key) == KeyShapes()[i]
  {
  }

  lemma DefaultKeysDistinct()
    ensures DistinctKeys(DefaultFields)
  {
    var fs, ks := DefaultFields, KeyShapes();
    DefaultKeyShapes();
    forall i, j | 0 <= i < j < |fs|
      ensures fs[i].key != fs[j].key
    {
      assert ks[i] != ks[j];
    }
  }

  /** A key whose shape matches no default key's is not one. */
  lemma NotADefaultKey(k: string)
    requires k != [] && forall i :: 0 <= i < |KeyShapes()| ==> KeyShapes()[i] != Shape(k)
    ensures forall i :: 0 <= i < |DefaultFields| ==> DefaultFields[i].key != k
  {
    DefaultKeyShapes();
  }

  /** What one property of the options becomes, given its current value:
      a plain default fills in only for `undefined`; a default array is
      copied in for any falsy value; a nested default object fills in the
      current value if that is an object, else a new empty object. */
  function Filled(cur: JsValue, d: Default): Result<JsValue>
    decreases d, 1
  {
    match d
    case Scalar(v) => Ok(if cur.Undefined? then v else cur)
    case List(items) => Ok(if Truthy(cur) then cur else Arr(items, map[]))
    case Group(gs) => FillFields(if IsObject(cur) then cur else Obj(map[]), gs)
  }

  /** One iteration of the `for...in` loop of `checkOptions`. Under strict
      mode a key other than `length` (which a string answers) is filled
      only on an object or array; an object or array keeps its kind. */
  function FillField(o: JsValue, f: Field): (r: Result<JsValue>)
    ensures r.Ok? && f.key != "length" ==> HoldsProps(o)
    ensures r.Ok? && HoldsProps(o) ==> HoldsProps(r.value) && r.value.Arr? == o.Arr?
    decreases f, 0
  {
    var cur :- Get(o, f.key);
    match f.value
    case Scalar(v) => if cur.Undefined? then Set(o, f.key, v) else Ok(o)
    case List(items) => if Truthy(cur) then Ok(o) else Set(o, f.key, Arr(items, map[]))
    case Group(gs) =>
      var o1 :- if IsObject(cur) then Ok(o) else Set(o, f.key, Obj(map[]));
      var filled :- FillFields(if IsObject(cur) then cur else Obj(map[]), gs);
      Set(o1, f.key, filled)
  }

  /** `checkOptions(opts, def)`: every property of `def`, in order; the
      first TypeError ends it. With at least one default, none keyed
      `length`, it succeeds only on an object or array; an object or array
      stays one of the same kind. */
  function FillFields(o: JsValue, fs: seq<Field>): (r: Result<JsValue>)
    ensures r.Ok? && fs != [] && PlainKeys(fs) ==> HoldsProps(o)
    ensures r.Ok? && HoldsProps(o) ==> HoldsProps(r.value) && r.value.Arr? == o.Arr?
    decreases fs
  {
    if fs == [] then Ok(o)
    else
      var o1 :- FillField(o, fs[0]);
      FillFields(o1, fs[1..])
  }

  /** `checkOptions(opts, def)`, property by property, recursing into
      nested defaults. */
  method CheckOptions(opts: JsValue, def: seq<Field>) returns (r: Result<JsValue>)
    decreases def
    ensures r == FillFields(opts, def)
  {
    var o := opts;
    var i := 0;
    while i < |def|
      invariant 0 <= i <= |def|
      invariant FillFields(opts, def) == FillFields(o, def[i..])
    {
      var f := def[i];
      assert def[i..][0] == f && def[i..][1..] == def[i + 1..];
      var cur := Get(o, f.key);
      if cur.Failure? {
        return Failure(TypeError);
      }
      match f.value {
        case Scalar(v) =>
          if cur.value.Undefined? {
            var s := Set(o, f.key, v);
            if s.Failure? {
              return s;
            }
            o := s.value;
          }
        case List(items) =>
          if !Truthy(cur.value) {
            var s := Set(o, f.key, Arr(items, map[]));
            if s.Failure? {
              return s;
            }
            o := s.value;
          }
        case Group(gs) =>
          var child := cur.value;
          var o1 := o;
          if !IsObject(child) {
            var s := Set(o, f.key, Obj(map[]));
            if s.Failure? {
              return s;
            }
            o1 := s.value;
            child := Obj(map[]);
          }
          assert f in def;
          var filled := CheckOptions(child, gs);
          if filled.Failure? {
            return filled;
          }
          var s := Set(o1, f.key, filled.value);
          if s.Failure? {
            return s;
          }
          o := s.value;
      }
      i := i + 1;
    }
    assert def[|def|..] == [];
    return Ok(o);
  }

  // ---------------------------------------------------------------------
  // What checkOptions guarantees

  /** One property: only that property changes, and it becomes `Filled`. */
  lemma FillFieldMeaning(o: JsValue, f: Field)
    requires f.key != "length" && FillField(o, f).Ok?
    ensures Get(o, f.key).Ok? && HoldsProps(FillField(o, f).value) && HoldsProps(o)
    ensures Get(FillField(o, f).value, f.key) == Filled(Get(o, f.key).value, f.value)
    ensures forall k :: k != f.key ==> Get(FillField(o, f).value, k) == Get(o, k)
  {
    var cur := Get(o, f.key).value;
    assert !HoldsProps(o) ==> cur == Undefined;
    assert HoldsProps(o);
    match f.value
    case Scalar(v) =>
      if cur.Undefined? { SetReads(o, f.key, v); }
    case List(items) =>
      if !Truthy(cur) { SetReads(o, f.key, Arr(items, map[])); }
    case Group(gs) =>
      var o1 := if IsObject(cur) then o else Set(o, f.key, Obj(map[])).value;
      assert HoldsProps(o1);
      var filled := FillFields(if IsObject(cur) then cur else Obj(map[]), gs).value;
      SetReads(o1, f.key, filled);
      if !IsObject(cur) { SetReads(o, f.key, Obj(map[])); }
  }

  /** `GetAfterSet` for every other key at once. */
  lemma SetReads(v: JsValue, k: string, x: JsValue)
    requires HoldsProps(v) && k != "length"
    ensures Get(Set(v, k, x).value, k) == Ok(x)
    ensures forall k2 :: k2 != k ==> Get(Set(v, k, x).value, k2) == Get(v, k2)
  {
    forall k2 | k2 != k ensures Get(Set(v, k, x).value, k2) == Get(v, k2) {
      GetAfterSet(v, k, x, k2);
    }
  }

  /** A property `checkOptions` does not visit reads as before. */
  lemma {:induction false} FillFieldsFrame(o: JsValue, fs: seq<Field>, k: string)
    requires FillFields(o, fs).Ok?
    requires forall i :: 0 <= i < |fs| ==> fs[i].key != k && fs[i].key != "length"
    ensures Get(FillFields(o, fs).value, k) == Get(o, k)
    ensures HoldsProps(o) ==> HoldsProps(FillFields(o, fs).value)
    decreases fs
  {
    if fs != [] {
      var o1 := FillField(o, fs[0]).value;
      FillFieldMeaning(o, fs[0]);
      FillFieldsFrame(o1, fs[1..], k);
    }
  }

  /** Every property of the defaults ends up as `Filled` makes it from the
      value the options held for it on entry. */
  lemma {:induction false} FillFieldsPerKey(o: JsValue, fs: seq<Field>, i: nat)
    requires PlainKeys(fs) && FillFields(o, fs).Ok? && i < |fs|
    ensures Get(o, fs[i].key).Ok?
    ensures Get(FillFields(o, fs).value, fs[i].key) == Filled(Get(o, fs[i].key).value, fs[i].value)
    decreases fs
  {
    var o1 := FillField(o, fs[0]).value;
    FillFieldMeaning(o, fs[0]);
    if i == 0 {
      FillFieldsFrame(o1, fs[1..], fs[0].key);
    } else {
      FillFieldsPerKey(o1, fs[1..], i - 1);
      assert fs[1..][i - 1] == fs[i];
    }
  }

  /** The options `checkOptions` can fill without throwing: an array or
      object whose nested objects, wherever the defaults have one, are
      either not objects at all (they get replaced) or fit in turn. */
  predicate Fits(o: JsValue, fs: seq<Field>)
    decreases fs
  {
    HoldsProps(o) &&
    forall i :: 0 <= i < |fs| && fs[i].value.Group? ==>
      var cur := Get(o, fs[i].key).value;
      IsObject(cur) ==> Fits(cur, fs[i].value.fields)
  }

  /** A new empty object always fits. */
  lemma EmptyObjectFits(fs: seq<Field>)
    ensures Fits(Obj(map[]), fs)
  {
  }

  /** `checkOptions` throws exactly when the options do not fit: when they
      are a primitive, or a nested object is `null` (`typeof null` is
      'object', so it is not replaced, and reading from it throws). */
  lemma {:induction false} FillFieldsSucceedsIff(o: JsValue, fs: seq<Field>)
    requires WellFormed(fs) && fs != []
    ensures FillFields(o, fs).Ok? <==> Fits(o, fs)
    decreases fs
  {
    var f := fs[0];
    var rest := fs[1..];
    assert forall j :: 0 <= j < |rest| ==> rest[j] == fs[j + 1];
    assert WellFormed(rest);
    if FillFields(o, fs).Ok? {
      var o1 := FillField(o, f).value;
      FillFieldMeaning(o, f);
      if f.value.Group? {
        var cur := Get(o, f.key).value;
        assert f in fs;
        if IsObject(cur) {
          FillFieldsSucceedsIff(cur, f.value.fields);
        }
      }
      if rest != [] {
        FillFieldsSucceedsIff(o1, rest);
        forall j | 1 <= j < |fs| && fs[j].value.Group?
          ensures var cur := Get(o, fs[j].key).value; IsObject(cur) ==> Fits(cur, fs[j].value.fields)
        {
          assert fs[j].key != f.key;
          assert rest[j - 1] == fs[j];
        }
      }
    }
    if Fits(o, fs) {
      // The first property cannot throw ...
      assert FillField(o, f).Ok? by {
        if f.value.Group? {
          var cur := Get(o, f.key).value;
          assert f in fs;
          if IsObject(cur) {
            FillFieldsSucceedsIff(cur, f.value.fields);
          } else {
            EmptyObjectFits(f.value.fields);
            FillFieldsSucceedsIff(Obj(map[]), f.value.fields);
          }
        }
      }
      // ... and the rest still fits afterwards.
      var o1 := FillField(o, f).value;
      FillFieldMeaning(o, f);
      if rest != [] {
        forall j | 0 <= j < |rest| && rest[j].value.Group?
          ensures var cur := Get(o1, rest[j].key).value; IsObject(cur) ==> Fits(cur, rest[j].value.fields)
        {
          assert rest[j] == fs[j + 1];
          assert fs[j + 1].key != f.key;
        }
        FillFieldsSucceedsIff(o1, rest);
      }
    }
  }

  // ---------------------------------------------------------------------
  // setOptions

  /** The object `setOptions` starts from: `opts || {}`. */
  function Given(opts: JsValue): JsValue {
    if Truthy(opts) then opts else Obj(map[])
  }

  /** The question the caller's options carry, or a new empty one. */
  function GivenQuestion(opts: JsValue): JsValue
    requires HoldsProps(Given(opts))
  {
    var q := Get(Given(opts), "q").value;
    if Truthy(q) then q else Obj(map[])
  }

  /** The first half of `setOptions`: default `opts` and `opts.q` to new
      objects, then `q.name = q.name || name`. */
  function Prepared(opts: JsValue): Result<JsValue> {
    var o := Given(opts);
    var q :- Get(o, "q");
    var q1 := if Truthy(q) then q else Obj(map[]);
    var o1 :- Set(o, "q", q1);
    var qn :- Get(q1, "name");
    var name :- Get(o1, "name");
    var q2 :- Set(q1, "name", if Truthy(qn) then qn else name);
    Set(o1, "q", q2)
  }

  /** `setOptions(opts)`, up to the assignment to `this.options`: prepare
      the options, note the caller's timeout, fill in the defaults, and
      force the timeout to 0 when neither a find pattern nor a timeout was
      given. */
  function Configure(opts: JsValue): (r: Result<JsValue>)
    ensures r.Ok? ==> HoldsProps(r.value)
  {
    var o2 :- Prepared(opts);
    var to :- Get(o2, "timeout");
    var o3 :- FillFields(o2, DefaultFields);
    var find :- Get(o3, "find");
    if !Truthy(find) && !Truthy(to) then Set(o3, "timeout", Num(0)) else Ok(o3)
  }

  /** `q.name || name`, as the preparation computes it. */
  function ShorthandName(opts: JsValue): JsValue
    requires HoldsProps(Given(opts)) && HoldsProps(GivenQuestion(opts))
  {
    var qn := Get(GivenQuestion(opts), "name").value;
    if Truthy(qn) then qn else Get(Given(opts), "name").value
  }

  /** The preparation throws exactly when the options, or their `q`, are a
      truthy primitive (strict mode forbids setting a property on either);
      otherwise only `q` changes, and in it only `name`. */
  lemma PreparedMeaning(opts: JsValue)
    ensures Prepared(opts).Ok? <==> HoldsProps(Given(opts)) && HoldsProps(GivenQuestion(opts))
    ensures Prepared(opts).Ok? ==>
      var o2 := Prepared(opts).value;
      HoldsProps(o2) && Get(o2, "q").Ok? && HoldsProps(Get(o2, "q").value) &&
      (forall k :: k != "q" ==> Get(o2, k) == Get(Given(opts), k)) &&
      Get(Get(o2, "q").value, "name") == Ok(ShorthandName(opts)) &&
      (forall k :: k != "name" ==> Get(Get(o2, "q").value, k) == Get(GivenQuestion(opts), k))
  {
    var o := Given(opts);
    if HoldsProps(o) {
      var q1 := GivenQuestion(opts);
      var o1 := Set(o, "q", q1).value;
      SetReads(o, "q", q1);
      if HoldsProps(q1) {
        var qn := Get(q1, "name").value;
        var q2 := Set(q1, "name", if Truthy(qn) then qn else Get(o1, "name").value).value;
        SetReads(q1, "name", if Truthy(qn) then qn else Get(o1, "name").value);
        SetReads(o1, "q", q2);
        assert Prepared(opts) == Set(o1, "q", q2);
      }
    }
  }

  /** The fill keeps the find pattern: it has no default. */
  lemma FillKeepsFind(o: JsValue)
    requires FillFields(o, DefaultFields).Ok?
    ensures Get(FillFields(o, DefaultFields).value, "find") == Get(o, "find")
    ensures HoldsProps(o) ==> HoldsProps(FillFields(o, DefaultFields).value)
  {
    NotADefaultKey("length");
    NotADefaultKey("find");
    FillFieldsFrame(o, DefaultFields, "find");
  }

  /** The preparation leaves every property but `q` as given. */
  lemma PreparedKeeps(opts: JsValue, k: string)
    requires Prepared(opts).Ok? && k != "q"
    ensures HoldsProps(Given(opts)) && HoldsProps(Prepared(opts).value)
    ensures Get(Prepared(opts).value, k) == Get(Given(opts), k)
  {
    PreparedMeaning(opts);
  }

  /** The steps of `Configure` once the preparation succeeded: the fill
      sees the caller's timeout and find pattern, and leaves the latter. */
  lemma ConfigureSteps(opts: JsValue)
    requires Prepared(opts).Ok? && FillFields(Prepared(opts).value, DefaultFields).Ok?
    ensures var o3 := FillFields(Prepared(opts).value, DefaultFields).value;
      var find := Get(Given(opts), "find").value;
      var to := Get(Given(opts), "timeout").value;
      HoldsProps(o3) && Get(o3, "find") == Ok(find) &&
      Configure(opts) == (if !Truthy(find) && !Truthy(to) then Set(o3, "timeout", Num(0)) else Ok(o3))
  {
    PreparedKeeps(opts, "timeout");
    PreparedKeeps(opts, "find");
    FillKeepsFind(Prepared(opts).value);
  }

  /** `setOptions` throws exactly when the options are a truthy primitive,
      or their `q` is. */
  lemma ConfigureFailsIff(opts: JsValue)
    ensures Configure(opts).Failure? <==>
      !HoldsProps(Given(opts)) || !HoldsProps(GivenQuestion(opts))
  {
    PreparedMeaning(opts);
    if Prepared(opts).Ok? {
      var o2 := Prepared(opts).value;
      DefaultsWellFormed();
      DefaultsFit(o2);
      FillFieldsSucceedsIff(o2, DefaultFields);
      ConfigureSteps(opts);
    }
  }

  /** Options whose question takes properties fit the defaults: `q` is the
      only nested default, and the question defaults nest nothing. */
  lemma DefaultsFit(o: JsValue)
    requires HoldsProps(o) && Get(o, "q").Ok? && HoldsProps(Get(o, "q").value)
    ensures Fits(o, DefaultFields)
  {
    var fs := DefaultFields;
    forall i | 0 <= i < |fs| && fs[i].value.Group?
      ensures var cur := Get(o, fs[i].key).value; IsObject(cur) ==> Fits(cur, fs[i].value.fields)
    {
      assert i == 6;
      assert fs[6].value.fields == QuestionFields;
    }
  }

  /** A property with a default value: the given value if defined, else
      the default. */
  function Defaulted(given: JsValue, default: JsValue): JsValue {
    if given.Undefined? then default else given
  }

  /** Apart from the timeout, the installed options read as the filled
      ones. */
  lemma ConfiguredReadsFilled(opts: JsValue, k: string)
    requires Configure(opts).Ok? && k != "timeout"
    ensures Prepared(opts).Ok? && FillFields(Prepared(opts).value, DefaultFields).Ok?
    ensures Get(Configure(opts).value, k) == Get(FillFields(Prepared(opts).value, DefaultFields).value, k)
  {
    var o3 := FillFields(Prepared(opts).value, DefaultFields).value;
    if Configure(opts) != Ok(o3) {
      GetAfterSet(o3, "timeout", Num(0), k);
    }
  }

  /** Every plain default but the timeout fills in only where the caller
      left the property undefined. */
  lemma ConfiguredPlainProperty(opts: JsValue, i: nat)
    requires Configure(opts).Ok? && i < |DefaultFields| && DefaultFields[i].value.Scalar? && i != 7
    ensures HoldsProps(Given(opts))
    ensures var f := DefaultFields[i];
      Get(Configure(opts).value, f.key) == Ok(Defaulted(Get(Given(opts), f.key).value, f.value.v))
  {
    DefaultsPlainKeys();
    var fs := DefaultFields;
    assert fs[i].key != fs[7].key && fs[i].key != fs[6].key;
    ConfiguredReadsFilled(opts, fs[i].key);
    PreparedKeeps(opts, fs[i].key);
    FillFieldsPerKey(Prepared(opts).value, fs, i);
  }

  /** Properties without a default -- `name` (the default key is the typo
      `nsme`), `find`, `returnOnFirstFound` and any other -- are kept as
      given. */
  lemma ConfiguredOtherProperty(opts: JsValue, k: string)
    requires Configure(opts).Ok? && forall i :: 0 <= i < |DefaultFields| ==> DefaultFields[i].key != k
    ensures HoldsProps(Given(opts))
    ensures Get(Configure(opts).value, k) == Get(Given(opts), k)
  {
    DefaultsPlainKeys();
    var fs := DefaultFields;
    assert fs[7].key != k && fs[6].key != k;
    ConfiguredReadsFilled(opts, k);
    PreparedKeeps(opts, k);
    FillFieldsFrame(Prepared(opts).value, fs, k);
  }

  /** `interfaces` is a copy of the default empty array unless the caller
      gave a truthy value, which is kept. */
  lemma ConfiguredInterfaces(opts: JsValue)
    requires Configure(opts).Ok?
    ensures HoldsProps(Given(opts))
    ensures var given := Get(Given(opts), "interfaces").value;
      Get(Configure(opts).value, "interfaces") == Ok(if Truthy(given) then given else Arr([], map[]))
  {
    DefaultsPlainKeys();
    ConfiguredReadsFilled(opts, "interfaces");
    PreparedKeeps(opts, "interfaces");
    FillFieldsPerKey(Prepared(opts).value, DefaultFields, 4);
  }

  /** The question the preparation leaves: the given one (or a new
      object), with the shorthand name. */
  lemma PreparedQuestion(opts: JsValue)
    requires Prepared(opts).Ok?
    ensures HoldsProps(Given(opts)) && HoldsProps(GivenQuestion(opts))
    ensures var q2 := Get(Prepared(opts).value, "q");
      q2.Ok? && HoldsProps(q2.value) && Get(q2.value, "name") == Ok(ShorthandName(opts)) &&
      Get(q2.value, "type") == Get(GivenQuestion(opts), "type") &&
      Get(q2.value, "class") == Get(GivenQuestion(opts), "class")
  {
    PreparedMeaning(opts);
  }

  /** Filling a question object: name, type and class default to "", PTR
      and 0x8001 where undefined. */
  lemma QuestionFilled(q: JsValue)
    requires FillFields(q, QuestionFields).Ok?
    ensures var r := FillFields(q, QuestionFields).value;
      (HoldsProps(q) ==> HoldsProps(r)) &&
      Get(r, "name") == Ok(Defaulted(Get(q, "name").value, Str(""))) &&
      Get(r, "type") == Ok(Defaulted(Get(q, "type").value, Str("PTR"))) &&
      Get(r, "class") == Ok(Defaulted(Get(q, "class").value, Num(0x8001)))
  {
    DefaultsPlainKeys();
    var qs := QuestionFields;
    FillFieldsFrame(q, qs, "timeout");
    FillFieldsPerKey(q, qs, 0);
    FillFieldsPerKey(q, qs, 1);
    FillFieldsPerKey(q, qs, 2);
  }

  /** The question: its name is `q.name || name`, else ""; its type and
      class are the given ones, else PTR and 0x8001. */
  lemma ConfiguredQuestion(opts: JsValue)
    requires Configure(opts).Ok?
    ensures HoldsProps(Given(opts)) && HoldsProps(GivenQuestion(opts))
    ensures Get(Configure(opts).value, "q").Ok?
    ensures var q := Get(Configure(opts).value, "q").value;
      var q1 := GivenQuestion(opts);
      HoldsProps(q) &&
      Get(q, "name") == Ok(Defaulted(ShorthandName(opts), Str(""))) &&
      Get(q, "type") == Ok(Defaulted(Get(q1, "type").value, Str("PTR"))) &&
      Get(q, "class") == Ok(Defaulted(Get(q1, "class").value, Num(0x8001)))
  {
    ConfiguredReadsFilled(opts, "q");
    DefaultsPlainKeys();
    var o2 := Prepared(opts).value;
    PreparedQuestion(opts);
    var q2 := Get(o2, "q").value;
    FillFieldsPerKey(o2, DefaultFields, 6);
    assert Get(Configure(opts).value, "q") == FillFields(q2, QuestionFields);
    QuestionFilled(q2);
  }

  /** The timeout is 0 when neither `find` nor `timeout` was truthy;
      otherwise the given one, or 4 when none was given. */
  lemma ConfiguredTimeout(opts: JsValue)
    requires Configure(opts).Ok?
    ensures HoldsProps(Given(opts))
    ensures var find := Get(Given(opts), "find").value;
      var to := Get(Given(opts), "timeout").value;
      Get(Configure(opts).value, "timeout") == Ok(if !Truthy(find) && !Truthy(to) then Num(0) else Defaulted(to, Num(4)))
  {
    DefaultsPlainKeys();
    ConfigureSteps(opts);
    PreparedKeeps(opts, "timeout");
    var o3 := FillFields(Prepared(opts).value, DefaultFields).value;
    FillFieldsPerKey(Prepared(opts).value, DefaultFields, 7);
    if Configure(opts) != Ok(o3) {
      GetAfterSet(o3, "timeout", Num(0), "timeout");
    }
  }
}
