/** The ERP field-mapping engine: canonical to external field names and back. */
module FieldMapping {
  import opened Prelude
  import opened Sorting
  import J = Json

  /** One mapped field: a canonical name and the ERP's name for it. */
  datatype Field = Field(canonical: string, ext: string)

  /** A `BTreeMap` from canonical to external names: fields in ascending canonical order. */
  ghost predicate Valid(fs: seq<Field>) {
    forall i, j :: 0 <= i < j < |fs| ==> LexLe(fs[i].canonical, fs[j].canonical) && fs[i].canonical != fs[j].canonical
  }

  type Record = map<string, J.Value>

  /** A record to translate; anything but an object has no members. */
  function Members(v: J.Value): Record {
    if v.Object? then v.fields else map[]
  }

  function ToCanonical(fs: seq<Field>, x: Record): Record {
    if fs == [] then map[]
    else
      var f, out := fs[|fs| - 1], ToCanonical(fs[..|fs| - 1], x);
      if f.ext in x then out[f.canonical := x[f.ext]] else out
  }

  function ToExternal(fs: seq<Field>, c: Record): Record {
    if fs == [] then map[]
    else
      var f, out := fs[|fs| - 1], ToExternal(fs[..|fs| - 1], c);
      if f.canonical in c then out[f.ext := c[f.canonical]] else out
  }

  method Import(fs: seq<Field>, external: J.Value) returns (r: J.Value)
    ensures r == J.Object(ToCanonical(fs, Members(external)))
  {
    var out: Record := map[];
    for i := 0 to |fs|
      invariant out == ToCanonical(fs[..i], Members(external))
    {
      assert fs[..i + 1][..i] == fs[..i];
      var val := J.Get(external, fs[i].ext);
      if val.Some? {
        out := out[fs[i].canonical := val.value];
      }
    }
    assert fs[..|fs|] == fs;
    r := J.Object(out);
  }

  method Export(fs: seq<Field>, canonical: J.Value) returns (r: J.Value)
    ensures r == J.Object(ToExternal(fs, Members(canonical)))
  {
    var out: Record := map[];
    for i := 0 to |fs|
      invariant out == ToExternal(fs[..i], Members(canonical))
    {
      assert fs[..i + 1][..i] == fs[..i];
      var val := J.Get(canonical, fs[i].canonical);
      if val.Some? {
        out := out[fs[i].ext := val.value];
      }
    }
    assert fs[..|fs|] == fs;
    r := J.Object(out);
  }

  // ---- What a translated record holds --------------------------------------

  lemma ValidInit(fs: seq<Field>)
    requires Valid(fs) && fs != []
    ensures Valid(fs[..|fs| - 1])
    ensures var init, f := fs[..|fs| - 1], fs[|fs| - 1];
            forall g :: g in init ==> g.canonical != f.canonical && LexLe(g.canonical, f.canonical)
  {
    var init, f := fs[..|fs| - 1], fs[|fs| - 1];
    forall g | g in init ensures g.canonical != f.canonical && LexLe(g.canonical, f.canonical) {
      var i :| 0 <= i < |init| && init[i] == g;
      assert LexLe(fs[i].canonical, fs[|fs| - 1].canonical) && fs[i].canonical != fs[|fs| - 1].canonical;
    }
    forall i, j | 0 <= i < j < |init|
      ensures LexLe(init[i].canonical, init[j].canonical) && init[i].canonical != init[j].canonical
    {
      assert LexLe(fs[i].canonical, fs[j].canonical) && fs[i].canonical != fs[j].canonical;
    }
  }

  /** Field `f` of the mapping finds a value in the external record. */
  ghost predicate Imports(fs: seq<Field>, x: Record, k: string) {
    exists f :: f in fs && f.canonical == k && f.ext in x
  }

  lemma {:induction false} ToCanonicalAt(fs: seq<Field>, x: Record, k: string)
    requires Valid(fs)
    ensures k in ToCanonical(fs, x) <==> Imports(fs, x, k)
    ensures forall f :: f in fs && f.canonical == k && f.ext in x ==> ToCanonical(fs, x)[k] == x[f.ext]
  {
    hide Valid, LexLe;
    if fs != [] {
      ValidInit(fs);
      var init, f := fs[..|fs| - 1], fs[|fs| - 1];
      ToCanonicalAt(init, x, k);
      assert fs == init + [f];
    }
  }

  /** `f` is the present field of greatest canonical name among those mapped to `f.ext`. */
  ghost predicate Wins(fs: seq<Field>, c: Record, f: Field) {
    f in fs && f.canonical in c &&
    forall g :: g in fs && g.ext == f.ext && g.canonical in c ==> LexLe(g.canonical, f.canonical)
  }

  /** Colliding external names resolve to the greatest canonical key present. */
  lemma {:induction false} ToExternalAt(fs: seq<Field>, c: Record, e: string)
    requires Valid(fs)
    ensures e in ToExternal(fs, c) <==> exists f :: Wins(fs, c, f) && f.ext == e
    ensures e in ToExternal(fs, c) <==> exists f :: f in fs && f.ext == e && f.canonical in c
    ensures forall f :: Wins(fs, c, f) && f.ext == e ==> ToExternal(fs, c)[e] == c[f.canonical]
  {
    hide Valid, LexLe;
    if fs != [] {
      ValidInit(fs);
      var init, f := fs[..|fs| - 1], fs[|fs| - 1];
      ToExternalAt(init, c, e);
      assert fs == init + [f];
      if f.canonical in c && f.ext == e {
        LexReflexive(f.canonical);
        assert Wins(fs, c, f);
        forall g | Wins(fs, c, g) && g.ext == e ensures g == f {
          if g in init {
            LexAntisymmetric(g.canonical, f.canonical);
          }
        }
      } else {
        forall g ensures Wins(fs, c, g) && g.ext == e <==> Wins(init, c, g) && g.ext == e {
        }
      }
    }
  }

  lemma LexReflexive(a: string)
    ensures LexLe(a, a)
  {
    LexTotal(a, a);
  }

  // ---- Round trips ---------------------------------------------------------

  /** The part of an external record that the mapping names. */
  ghost function Named(fs: seq<Field>, x: Record): Record {
    map e | e in x && exists f :: f in fs && f.ext == e :: x[e]
  }

  /** The part of a canonical record that the mapping maps. */
  ghost function Mapped(fs: seq<Field>, c: Record): Record {
    map k | k in c && exists f :: f in fs && f.canonical == k :: c[k]
  }

  /** Import then export returns the external record cut to the mapped external names, for
      every mapping, colliding names included. */
  lemma ImportExport(fs: seq<Field>, x: Record)
    requires Valid(fs)
    ensures ToExternal(fs, ToCanonical(fs, x)) == Named(fs, x)
  {
    var c := ToCanonical(fs, x);
    forall e ensures e in ToExternal(fs, c) <==> e in Named(fs, x) {
      ToExternalAt(fs, c, e);
      forall f | f in fs && f.ext == e ensures f.canonical in c <==> e in x {
        ToCanonicalAt(fs, x, f.canonical);
        if f.canonical in c {
          var g :| g in fs && g.canonical == f.canonical && g.ext in x;
          SameKeySameField(fs, f, g);
        }
      }
    }
    forall e | e in ToExternal(fs, c) ensures ToExternal(fs, c)[e] == Named(fs, x)[e] {
      ToExternalAt(fs, c, e);
      var f :| Wins(fs, c, f) && f.ext == e;
      ToCanonicalAt(fs, x, f.canonical);
    }
  }

  lemma SameKeySameField(fs: seq<Field>, f: Field, g: Field)
    requires Valid(fs) && f in fs && g in fs && f.canonical == g.canonical
    ensures f == g
  {
    var i :| 0 <= i < |fs| && fs[i] == f;
    var j :| 0 <= j < |fs| && fs[j] == g;
    assert i == j;
  }

  /** Fields that share an external name are both absent or carry the same value. */
  ghost predicate Agrees(fs: seq<Field>, c: Record) {
    forall f, g :: f in fs && g in fs && f.ext == g.ext && f.canonical in c ==>
      g.canonical in c && c[g.canonical] == c[f.canonical]
  }

  ghost predicate DistinctExternals(fs: seq<Field>) {
    forall f, g :: f in fs && g in fs && f.ext == g.ext ==> f == g
  }

  /** What export then import makes of one mapped field: the winner of its external name. */
  lemma ExportImportAt(fs: seq<Field>, c: Record, f: Field)
    requires Valid(fs) && f in fs
    ensures var back := ToCanonical(fs, ToExternal(fs, c));
            && (f.canonical in back <==> exists g :: g in fs && g.ext == f.ext && g.canonical in c)
            && (forall g :: Wins(fs, c, g) && g.ext == f.ext ==>
                  f.canonical in back && back[f.canonical] == c[g.canonical])
  {
    var x := ToExternal(fs, c);
    ToExternalAt(fs, c, f.ext);
    ToCanonicalAt(fs, x, f.canonical);
    if f.canonical in ToCanonical(fs, x) {
      var g :| g in fs && g.canonical == f.canonical && g.ext in x;
      SameKeySameField(fs, f, g);
    }
  }

  lemma BackIsMapped(fs: seq<Field>, x: Record, k: string)
    requires Valid(fs) && k in ToCanonical(fs, x)
    ensures exists f :: f in fs && f.canonical == k
  {
    ToCanonicalAt(fs, x, k);
  }

  /** Export then import returns the canonical record cut to the mapped fields exactly when
      colliding fields agree. */
  lemma ExportImportIff(fs: seq<Field>, c: Record)
    requires Valid(fs)
    ensures ToCanonical(fs, ToExternal(fs, c)) == Mapped(fs, c) <==> Agrees(fs, c)
  {
    var back := ToCanonical(fs, ToExternal(fs, c));
    if Agrees(fs, c) {
      AgreesMeansBack(fs, c);
    }
    if back == Mapped(fs, c) {
      forall f, g | f in fs && g in fs && f.ext == g.ext && f.canonical in c
        ensures g.canonical in c && c[g.canonical] == c[f.canonical]
      {
        ExportImportAt(fs, c, f);
        ExportImportAt(fs, c, g);
        ToExternalAt(fs, c, f.ext);
        var w :| Wins(fs, c, w) && w.ext == f.ext;
        assert f.canonical in back && g.canonical in back;
        assert back[f.canonical] == c[w.canonical] == back[g.canonical];
      }
    }
  }

  lemma AgreesMeansBack(fs: seq<Field>, c: Record)
    requires Valid(fs) && Agrees(fs, c)
    ensures ToCanonical(fs, ToExternal(fs, c)) == Mapped(fs, c)
  {
    var back := ToCanonical(fs, ToExternal(fs, c));
    forall k ensures k in back <==> k in Mapped(fs, c) {
      if k in back {
        BackIsMapped(fs, ToExternal(fs, c), k);
        var f :| f in fs && f.canonical == k;
        ExportImportAt(fs, c, f);
      }
      if k in Mapped(fs, c) {
        var f :| f in fs && f.canonical == k;
        ExportImportAt(fs, c, f);
      }
    }
    forall k | k in back ensures back[k] == c[k] {
      assert k in Mapped(fs, c);
      var f :| f in fs && f.canonical == k;
      ExportImportAt(fs, c, f);
      ToExternalAt(fs, c, f.ext);
      var w :| Wins(fs, c, w) && w.ext == f.ext;
    }
  }

  /** Export then import is lossless on mapped fields for every record exactly when the
      mapping's external names are distinct. */
  lemma ExportImportAlwaysIff(fs: seq<Field>)
    requires Valid(fs)
    ensures (forall c :: ToCanonical(fs, ToExternal(fs, c)) == Mapped(fs, c)) <==> DistinctExternals(fs)
  {
    if DistinctExternals(fs) {
      forall c ensures ToCanonical(fs, ToExternal(fs, c)) == Mapped(fs, c) {
        ExportImportIff(fs, c);
      }
    } else {
      var f, g :| f in fs && g in fs && f.ext == g.ext && f != g;
      if f.canonical == g.canonical {
        SameKeySameField(fs, f, g);
      }
      var c: Record := map[f.canonical := J.Null];
      ExportImportIff(fs, c);
      assert !Agrees(fs, c);
    }
  }

  /** Two canonical names for one external name: a record with only the first comes back with both. */
  lemma CollidingExportLoses()
    ensures var fs := [Field("a", "x"), Field("b", "x")]; var c: Record := map["a" := J.Null];
            && Valid(fs)
            && Mapped(fs, c) == c
            && ToCanonical(fs, ToExternal(fs, c)) == map["a" := J.Null, "b" := J.Null]
  {
    var fs := [Field("a", "x"), Field("b", "x")];
    var c: Record := map["a" := J.Null];
    assert fs[..1] == [Field("a", "x")] && fs[..1][..0] == [];
    assert ToExternal(fs[..1], c) == map["x" := J.Null];
    assert ToExternal(fs, c) == map["x" := J.Null];
    assert ToCanonical(fs[..1], map["x" := J.Null]) == map["a" := J.Null];
    assert fs[0] in fs;
  }

  // ---- Parsing a mapping ---------------------------------------------------

  function AsMap(fs: seq<Field>): map<string, string> {
    if fs == [] then map[] else AsMap(fs[..|fs| - 1])[fs[|fs| - 1].canonical := fs[|fs| - 1].ext]
  }

  /** Either `{ "fields": { ... } }` or a bare object. */
  function MappingObject(v: J.Value): J.Value {
    match J.Get(v, "fields")
    case Some(f) => f
    case None => v
  }

  ghost predicate Parses(v: J.Value) {
    var obj := MappingObject(v);
    obj.Object? && forall k :: k in obj.fields ==> obj.fields[k].String?
  }

  ghost function Parsed(v: J.Value): map<string, string>
    requires Parses(v)
  {
    var obj := MappingObject(v).fields;
    map k | k in obj :: obj[k].s
  }

  /** Keep the fields in order while inserting a new one. */
  function InsertField(fs: seq<Field>, f: Field): seq<Field> {
    if fs == [] || LexLe(fs[|fs| - 1].canonical, f.canonical) then fs + [f]
    else InsertField(fs[..|fs| - 1], f) + [fs[|fs| - 1]]
  }

  lemma {:induction false} AsMapKeys(fs: seq<Field>, k: string)
    ensures k in AsMap(fs) <==> exists f :: f in fs && f.canonical == k
  {
    if fs != [] {
      AsMapKeys(fs[..|fs| - 1], k);
      assert fs == fs[..|fs| - 1] + [fs[|fs| - 1]];
    }
  }

  lemma {:induction false} InsertFieldMembers(fs: seq<Field>, f: Field)
    ensures forall g :: g in InsertField(fs, f) <==> g in fs || g == f
  {
    if fs != [] && !LexLe(fs[|fs| - 1].canonical, f.canonical) {
      InsertFieldMembers(fs[..|fs| - 1], f);
      assert fs == fs[..|fs| - 1] + [fs[|fs| - 1]];
    }
  }

  lemma ValidAppend(fs: seq<Field>, f: Field)
    requires Valid(fs) && forall g :: g in fs ==> LexLe(g.canonical, f.canonical) && g.canonical != f.canonical
    ensures Valid(fs + [f])
  {
  }

  lemma LastGreatest(fs: seq<Field>, f: Field)
    requires Valid(fs) && fs != [] && LexLe(fs[|fs| - 1].canonical, f.canonical)
    ensures forall g :: g in fs ==> LexLe(g.canonical, f.canonical)
  {
    forall g | g in fs ensures LexLe(g.canonical, f.canonical) {
      var i :| 0 <= i < |fs| && fs[i] == g;
      if i < |fs| - 1 {
        assert LexLe(fs[i].canonical, fs[|fs| - 1].canonical);
        LexTransitive(g.canonical, fs[|fs| - 1].canonical, f.canonical);
      }
    }
  }

  lemma {:induction false} InsertFieldValid(fs: seq<Field>, f: Field)
    requires Valid(fs) && forall g :: g in fs ==> g.canonical != f.canonical
    ensures Valid(InsertField(fs, f))
  {
    hide Valid, LexLe;
    if fs == [] {
      ValidOne(f);
      assert fs + [f] == [f];
    } else if LexLe(fs[|fs| - 1].canonical, f.canonical) {
      LastGreatest(fs, f);
      ValidAppend(fs, f);
    } else {
      var init, last := fs[..|fs| - 1], fs[|fs| - 1];
      ValidInit(fs);
      InsertFieldValid(init, f);
      InsertFieldMembers(init, f);
      LexTotal(last.canonical, f.canonical);
      ValidAppend(InsertField(init, f), last);
    }
  }

  lemma ValidOne(f: Field)
    ensures Valid([f])
  {
  }

  lemma {:induction false} InsertFieldMap(fs: seq<Field>, f: Field)
    requires forall g :: g in fs ==> g.canonical != f.canonical
    ensures AsMap(InsertField(fs, f)) == AsMap(fs)[f.canonical := f.ext]
  {
    hide LexLe;
    if fs == [] || LexLe(fs[|fs| - 1].canonical, f.canonical) {
      assert (fs + [f])[..|fs|] == fs;
    } else {
      var init, last := fs[..|fs| - 1], fs[|fs| - 1];
      InsertFieldMap(init, f);
      var r := InsertField(init, f);
      assert (r + [last])[..|r|] == r;
      assert last in fs;
    }
  }

  /** `from_json`; `None` is the mapping error. */
  method FromJson(v: J.Value) returns (r: Option<seq<Field>>)
    ensures r.Some? <==> Parses(v)
    ensures r.Some? ==> Valid(r.value) && AsMap(r.value) == Parsed(v)
  {
    hide Valid, InsertField, AsMap;
    EmptyMapping();
    var obj := MappingObject(v);
    if !obj.Object? {
      return None;
    }
    var fs: seq<Field> := [];
    var todo := obj.fields.Keys;
    while todo != {}
      invariant todo <= obj.fields.Keys && Valid(fs)
      invariant forall k :: k in obj.fields && k !in todo ==> obj.fields[k].String?
      invariant AsMap(fs) == map k | k in obj.fields && k !in todo && obj.fields[k].String? :: obj.fields[k].s
      decreases |todo|
    {
      var k :| k in todo;
      if !obj.fields[k].String? {
        return None;
      }
      forall g | g in fs ensures g.canonical != k {
        AsMapKeys(fs, g.canonical);
      }
      InsertFieldValid(fs, Field(k, obj.fields[k].s));
      InsertFieldMap(fs, Field(k, obj.fields[k].s));
      fs := InsertField(fs, Field(k, obj.fields[k].s));
      todo := todo - {k};
    }
    r := Some(fs);
  }

  lemma EmptyMapping()
    ensures Valid([]) && AsMap([]) == map[]
  {
  }

  function ObjectOf(m: map<string, string>): J.Value {
    J.Object(map k | k in m :: J.String(m[k]))
  }

  /** The wrapped form parses back to the mapping, always. */
  lemma WrappedRoundTrip(m: map<string, string>)
    ensures var v := J.Object(map["fields" := ObjectOf(m)]);
            Parses(v) && Parsed(v) == m
  {
  }

  /** The bare form parses back exactly when no canonical field is called "fields". */
  lemma BareRoundTripIff(m: map<string, string>)
    ensures (Parses(ObjectOf(m)) && Parsed(ObjectOf(m)) == m) <==> "fields" !in m
  {
    var v := ObjectOf(m);
    if "fields" in m {
      assert MappingObject(v) == J.String(m["fields"]);
    } else {
      assert MappingObject(v) == v;
    }
  }

  /** A bare mapping with a canonical field called "fields" is refused. */
  lemma BareFieldsRefused()
    ensures !Parses(ObjectOf(map["fields" := "x"]))
  {
    BareRoundTripIff(map["fields" := "x"]);
    assert MappingObject(ObjectOf(map["fields" := "x"])) == J.String("x");
  }
}
