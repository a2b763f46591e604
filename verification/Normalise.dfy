/** `FuzzyNames`, the type converters, and the two together for one level of a schema. */
module Normalise {
  import opened Iteration
  import opened Renaming
  import Aliases
  import Keys

  datatype Val =
    | Text(s: string)
    | Texts(items: seq<string>)
    | Flag(b: bool)
    | Dict(m: map<string, Val>)
    | TextDict(t: map<string, string>)
    | Other(id: int)

  type Data = map<string, Val>

  /** The field types that have a converter; the rest is `Plain`. */
  datatype Kind = Boolean | Array | Map | Plain

  type Types = map<string, Kind>

  function KindOf(types: Types, k: string): Kind {
    if k in types then types[k] else Plain
  }

  /** The converters; `show` is `convert.ToString`. */
  function Convert(show: Val -> string, kind: Kind, v: Val): Val {
    match kind
    case Boolean => if v.Text? then Flag(v.s == "true") else v
    case Array => if v.Text? then Texts([v.s]) else v
    case Map => if v.Dict? then TextDict(map k | k in v.m :: show(v.m[k])) else v
    case Plain => v
  }

  /** What a value of a field may become: one result for each value, stated case by case. */
  ghost predicate Becomes(show: Val -> string, kind: Kind, v: Val, r: Val) {
    && (kind == Boolean && v == Text("true") ==> r == Flag(true))
    && (kind == Boolean && v.Text? && v != Text("true") ==> r == Flag(false))
    && (kind == Array && v.Text? ==> r == Texts([v.s]))
    && (kind == Map && v.Dict? ==>
          r.TextDict? && r.t.Keys == v.m.Keys && forall k :: k in v.m ==> r.t[k] == show(v.m[k]))
    && (kind == Plain || (kind == Map && !v.Dict?) || (kind != Map && !v.Text?) ==> r == v)
  }

  function Converted(show: Val -> string, types: Types, d: Data): Data {
    map k | k in d :: Convert(show, KindOf(types, k), d[k])
  }

  class Document {
    var data: Data
    constructor (d: Data)
      ensures data == d
    {
      data := d;
    }
  }

  class FuzzyNames {
    var names: Names

    constructor ()
      ensures names == map[]
    {
      names := map[];
    }

    method AddName(name: string, toName: string)
      modifies this
      ensures names == Add(old(names), Aliases.Spellings(name), toName)
    {
      names := names[Keys.ToLower(name) := toName];
      names := names[Keys.ToYAMLKey(name) := toName];
      names := names[Keys.ToLower(Keys.ToYAMLKey(name)) := toName];
    }

    /** The body of the loop over the fields. */
    method AddField(field: string)
      modifies this
      ensures names == Add(old(names), Aliases.Of(field), field)
    {
      ghost var first := if Aliases.EndsIn(field, "s") then Aliases.Spellings(field[..|field| - 1]) else {};
      ghost var second := if Aliases.EndsIn(field, "es") then Aliases.Spellings(field[..|field| - 2]) else {};
      Aliases.OfUnion(field);
      AddTwice(names, first, second, field);
      AddTwice(names, first + second, Aliases.Spellings(field), field);
      AddTwice(Add(names, first, field), {}, {}, field);
      if Aliases.EndsIn(field, "s") {
        AddName(field[..|field| - 1], field);
      }
      if Aliases.EndsIn(field, "es") {
        AddName(field[..|field| - 2], field);
      }
      AddName(field, field);
    }

    /** `order` is the order in which the loop produced the fields. */
    method ModifySchema(fields: set<string>) returns (ghost order: seq<string>)
      modifies this
      ensures Orders(order, fields)
      ensures names == Build(Aliases.Of, order) + Aliases.Overruled()
      ensures "pass" in names && names["pass"] == "passphrase"
      ensures "password" in names && names["password"] == "passphrase"
      ensures forall a :: a in names && a != "pass" && a != "password" ==>
        names[a] in fields && a in Aliases.Of(names[a])
      ensures forall f, a :: f in fields && a in Aliases.Of(f) ==> a in names
    {
      names := map[];
      order := [];
      var left := fields;
      while left != {}
        invariant left <= fields && Orders(order, fields - left)
        invariant names == Build(Aliases.Of, order)
      {
        var f :| f in left;
        AddField(f);
        BuildMore(Aliases.Of, order, f);
        order, left := order + [f], left - {f};
      }
      forall a
        ensures a in names ==> names[a] in order && a in Aliases.Of(names[a])
        ensures forall f :: f in order && a in Aliases.Of(f) ==> a in names
      {
        BuildMeans(Aliases.Of, order, a);
      }
      Aliases.Overrule(names);
      names := names["pass" := "passphrase"];
      names := names["password" := "passphrase"];
    }

    /** The body of the loop over the data. */
    method VisitKey(doc: Document, k: string) returns (inserted: bool)
      requires k in doc.data
      modifies doc
      ensures doc.data == Visit(names, old(doc.data), k)
      ensures inserted <==> IsAlias(names, k) && names[k] !in old(doc.data)
    {
      inserted := false;
      if k in names && names[k] != k {
        inserted := names[k] !in doc.data;
        doc.data := doc.data[names[k] := doc.data[k]];
      }
    }

    /** `visits` is the sequence of keys that the loop produced. */
    method ToInternal(doc: Document) returns (ghost visits: seq<string>)
      modifies doc
      ensures Legal(names, old(doc.data), visits)
      ensures doc.data == Run(names, old(doc.data), visits)
    {
      ghost var m := doc.data;
      visits := [];
      var pending := doc.data.Keys;
      while pending != {}
        invariant Producing(names, m, visits, doc.data, pending)
        decreases m.Keys + names.Values - Seen(visits)
      {
        var k :| k in pending;
        Produce(names, m, visits, doc.data, pending, k);
        var inserted := VisitKey(doc, k);
        pending := pending - {k};
        var produced: bool := *;
        if inserted && produced {
          pending := pending + {names[k]};
        }
        visits := visits + [k];
      }
    }
  }

  // ---------- The type converters ----------

  ghost function FieldsOf(types: Types, kind: Kind): set<string> {
    set k | k in types && types[k] == kind
  }

  function ConvertedAt(show: Val -> string, kind: Kind, fields: seq<string>, d: Data): Data {
    map k | k in d :: if k in fields then Convert(show, kind, d[k]) else d[k]
  }

  /** One more field converter, which may repeat an earlier one. */
  lemma ConvertedMore(show: Val -> string, kind: Kind, f: string, fields: seq<string>, d: Data, was: Data)
    requires was == ConvertedAt(show, kind, fields, d)
    ensures f in d ==> was[f := Convert(show, kind, was[f])] == ConvertedAt(show, kind, [f] + fields, d)
    ensures f !in d ==> was == ConvertedAt(show, kind, [f] + fields, d)
  {
    assert forall k :: k in [f] + fields <==> k == f || k in fields;
  }

  class TypeConverter {
    const kind: Kind
    var mappers: seq<string>

    constructor (kind: Kind)
      ensures this.kind == kind && mappers == []
    {
      this.kind := kind;
      mappers := [];
    }

    /** The converter function; for maps it fills `obj` key by key. */
    method Converter(show: Val -> string, val: Val) returns (r: Val)
      ensures r == Convert(show, kind, val) && Becomes(show, kind, val, r)
    {
      r := val;
      if kind == Map && val.Dict? {
        var obj: map<string, string> := map[];
        var left := val.m.Keys;
        while left != {}
          invariant left <= val.m.Keys && obj.Keys == val.m.Keys - left
          invariant forall k :: k in obj ==> obj[k] == show(val.m[k])
        {
          var k :| k in left;
          obj, left := obj[k := show(val.m[k])], left - {k};
        }
        r := TextDict(obj);
      } else if kind == Array && val.Text? {
        r := Texts([val.s]);
      } else if kind == Boolean && val.Text? {
        r := Flag(val.s == "true");
      }
    }

    /** A field converter for every field of the type, in the order the loop produced them. */
    method ModifySchema(types: Types) returns (ghost order: seq<string>)
      modifies this
      ensures mappers == old(mappers) + order && Orders(order, FieldsOf(types, kind))
    {
      order := [];
      var left := types.Keys;
      while left != {}
        invariant left <= types.Keys && mappers == old(mappers) + order
        invariant Orders(order, FieldsOf(types, kind) - left)
      {
        var name :| name in left;
        if types[name] == kind {
          mappers := mappers + [name];
          order := order + [name];
        }
        left := left - {name};
      }
    }

    /** The field converters run from the last to the first. */
    method ToInternal(show: Val -> string, doc: Document)
      modifies doc
      ensures doc.data == ConvertedAt(show, kind, mappers, old(doc.data))
    {
      var i := |mappers|;
      assert mappers[i..] == [];
      while i > 0
        invariant 0 <= i <= |mappers|
        invariant doc.data == ConvertedAt(show, kind, mappers[i..], old(doc.data))
      {
        i := i - 1;
        var f := mappers[i];
        ConvertedMore(show, kind, f, mappers[i + 1..], old(doc.data), doc.data);
        assert [f] + mappers[i + 1..] == mappers[i..];
        if f in doc.data {
          var val := Converter(show, doc.data[f]);
          doc.data := doc.data[f := val];
        }
      }
      assert mappers[0..] == mappers;
    }
  }

  lemma EachKindOnce(show: Val -> string, types: Types, d: Data, flags: seq<string>, arrays: seq<string>,
          maps: seq<string>)
    requires Orders(flags, FieldsOf(types, Boolean)) && Orders(arrays, FieldsOf(types, Array))
      && Orders(maps, FieldsOf(types, Map))
    ensures ConvertedAt(show, Map, maps, ConvertedAt(show, Array, arrays, ConvertedAt(show, Boolean, flags, d))) ==
      Converted(show, types, d)
  {
    forall k
      ensures k in flags <==> KindOf(types, k) == Boolean
      ensures k in arrays <==> KindOf(types, k) == Array
      ensures k in maps <==> KindOf(types, k) == Map
    {
      assert k in FieldsOf(types, Boolean) <==> KindOf(types, k) == Boolean;
      assert k in FieldsOf(types, Array) <==> KindOf(types, k) == Array;
      assert k in FieldsOf(types, Map) <==> KindOf(types, k) == Map;
    }
  }

  // ---------- Renaming and converting together ----------

  /** No alias is shared, and `pass`, `password` and `passphrase` do not get in the way. */
  ghost predicate Tidy(types: Types) {
    && Unshared(Aliases.Of, Aliases.Overruled(), types.Keys)
    && (forall f :: f in types && f in Aliases.Overruled() ==>
         types[f] == Plain && Aliases.Of(f) <= Aliases.Overruled().Keys)
    && (forall f :: f in types && "passphrase" in Aliases.Of(f) ==> f == "passphrase")
  }

  /** The table for any order of the fields: no chains, and no alias is a field that is converted. */
  lemma TidyTable(types: Types, order: seq<string>)
    requires Tidy(types) && Orders(order, types.Keys)
    ensures NoChain(Build(Aliases.Of, order) + Aliases.Overruled())
    ensures forall k :: IsAlias(Build(Aliases.Of, order) + Aliases.Overruled(), k) ==> KindOf(types, k) == Plain
  {
    var al, extra := Aliases.Of, Aliases.Overruled();
    forall f, a | f in types && a in al(f) && a in types
      ensures a in al(a)
    {
      Aliases.OwnAlias(f);
      Aliases.OwnAlias(a);
    }
    forall k | k in Build(al, order) + extra
      ensures NotChained(al, extra, types.Keys, order, k)
    {
      TidyKey(al, extra, types.Keys, order, k);
    }
  }

  ghost function TableOf(types: Types): (names: Names)
    ensures exists order :: Orders(order, types.Keys) && names == Build(Aliases.Of, order) + Aliases.Overruled()
  {
    SomeOrderOf(types.Keys);
    var order :| Orders(order, types.Keys);
    Build(Aliases.Of, order) + Aliases.Overruled()
  }

  /** Renamed, then converted. */
  ghost function Normal(show: Val -> string, types: Types, names: Names, d: Data): Data {
    Converted(show, types, Renamed(names, d))
  }

  /** No key is both an alias and a field that is converted. */
  ghost predicate Settled(types: Types, names: Names) {
    NoChain(names) && forall k :: IsAlias(names, k) ==> KindOf(types, k) == Plain
  }

  /**
   What becomes of the data: a field gets the converted value of its spelling, or keeps its own
   converted; a spelling stays, with its raw value.
   */
  lemma NormalMeans(show: Val -> string, types: Types, names: Names, d: Data, q: string)
    requires Settled(types, names) && Unambiguous(names, d)
    ensures q in Normal(show, types, names, d) <==> q in d || HasSource(names, d, q)
    ensures forall k :: IsSource(names, d, k, q) ==>
      q in Normal(show, types, names, d) && Normal(show, types, names, d)[q] == Convert(show, KindOf(types, q), d[k])
    ensures q in d && !HasSource(names, d, q) ==>
      Normal(show, types, names, d)[q] == Convert(show, KindOf(types, q), d[q])
    ensures q in d && IsAlias(names, q) ==> !HasSource(names, d, q) && Normal(show, types, names, d)[q] == d[q]
    ensures forall k :: IsSource(names, d, k, q) ==>
      Becomes(show, KindOf(types, q), d[k], Normal(show, types, names, d)[q])
    ensures q in d && !HasSource(names, d, q) ==>
      Becomes(show, KindOf(types, q), d[q], Normal(show, types, names, d)[q])
  {
    RenamedMeans(names, d, q);
  }

  /** Sources are the same before and after. */
  lemma SameSources(show: Val -> string, types: Types, names: Names, d: Data, k: string, t: string)
    requires Settled(types, names) && Unambiguous(names, d)
    ensures IsSource(names, Normal(show, types, names, d), k, t) <==> IsSource(names, d, k, t)
    ensures IsSource(names, d, k, t) ==> Normal(show, types, names, d)[k] == d[k]
  {
    NormalMeans(show, types, names, d, k);
    if j :| IsSource(names, d, j, k) {
      assert !IsAlias(names, names[j]);
    }
  }

  /** Normalising twice is normalising once, though the spellings keep their raw values. */
  lemma NormalTwice(show: Val -> string, types: Types, names: Names, d: Data)
    requires Settled(types, names) && Unambiguous(names, d)
    ensures Unambiguous(names, Normal(show, types, names, d))
    ensures Normal(show, types, names, Normal(show, types, names, d)) == Normal(show, types, names, d)
  {
    var n := Normal(show, types, names, d);
    forall k, t
      ensures IsSource(names, n, k, t) <==> IsSource(names, d, k, t)
      ensures IsSource(names, d, k, t) ==> n[k] == d[k]
    {
      SameSources(show, types, names, d, k, t);
    }
    assert Unambiguous(names, n);
    forall q
      ensures q in Normal(show, types, names, n) <==> q in n
      ensures q in n ==> Normal(show, types, names, n)[q] == n[q]
    {
      NormalAgain(show, types, names, d, n, q);
    }
  }

  lemma NormalAgain(show: Val -> string, types: Types, names: Names, d: Data, n: Data, q: string)
    requires Settled(types, names) && Unambiguous(names, d) && n == Normal(show, types, names, d)
      && Unambiguous(names, n)
    ensures q in Normal(show, types, names, n) <==> q in n
    ensures q in n ==> Normal(show, types, names, n)[q] == n[q]
  {
    NormalMeans(show, types, names, d, q);
    NormalMeans(show, types, names, n, q);
    if k :| IsSource(names, d, k, q) {
      SameSources(show, types, names, d, k, q);
    } else if k :| IsSource(names, n, k, q) {
      SameSources(show, types, names, d, k, q);
    }
  }

  /** The mappers of one schema: `NewToMap`, `NewToSlice`, `NewToBool` and `FuzzyNames`. */
  class Mappers {
    const types: Types
    const toMap: TypeConverter
    const toSlice: TypeConverter
    const toBool: TypeConverter
    const fuzzy: FuzzyNames

    ghost predicate Valid()
      reads toMap, toSlice, toBool, fuzzy
    {
      && toMap.kind == Map && toSlice.kind == Array && toBool.kind == Boolean
      && Orders(toMap.mappers, FieldsOf(types, Map))
      && Orders(toSlice.mappers, FieldsOf(types, Array))
      && Orders(toBool.mappers, FieldsOf(types, Boolean))
      && exists order :: Orders(order, types.Keys) && fuzzy.names == Build(Aliases.Of, order) + Aliases.Overruled()
    }

    constructor (types: Types)
      ensures Valid() && this.types == types
    {
      this.types := types;
      toMap := new TypeConverter(Map);
      toSlice := new TypeConverter(Array);
      toBool := new TypeConverter(Boolean);
      fuzzy := new FuzzyNames();
      new;
      ghost var maps := toMap.ModifySchema(types);
      ghost var slices := toSlice.ModifySchema(types);
      ghost var flags := toBool.ModifySchema(types);
      assert toMap.mappers == maps && toSlice.mappers == slices && toBool.mappers == flags;
      ghost var order := fuzzy.ModifySchema(types.Keys);
    }

    /** The mappers run from the last to the first: the renaming comes before the converters. */
    method ToInternal(show: Val -> string, doc: Document) returns (ghost visits: seq<string>)
      requires Valid()
      modifies doc
      ensures Legal(fuzzy.names, old(doc.data), visits)
      ensures doc.data == Converted(show, types, Run(fuzzy.names, old(doc.data), visits))
      ensures Tidy(types) && Unambiguous(TableOf(types), old(doc.data)) ==>
        doc.data == Normal(show, types, TableOf(types), old(doc.data))
    {
      visits := fuzzy.ToInternal(doc);
      EachKindOnce(show, types, doc.data, toBool.mappers, toSlice.mappers, toMap.mappers);
      toBool.ToInternal(show, doc);
      toSlice.ToInternal(show, doc);
      toMap.ToInternal(show, doc);
      if Tidy(types) && Unambiguous(TableOf(types), old(doc.data)) {
        TableOfAny(types, fuzzy.names);
        RunIsRenamed(fuzzy.names, old(doc.data), visits);
      }
    }
  }

  /** In a tidy schema every order of the fields gives the same table. */
  lemma TableOfAny(types: Types, names: Names)
    requires Tidy(types)
    requires exists order :: Orders(order, types.Keys) && names == Build(Aliases.Of, order) + Aliases.Overruled()
    ensures names == TableOf(types) && Settled(types, names)
  {
    var o1 :| Orders(o1, types.Keys) && names == Build(Aliases.Of, o1) + Aliases.Overruled();
    var o2 :| Orders(o2, types.Keys) && TableOf(types) == Build(Aliases.Of, o2) + Aliases.Overruled();
    SameTable(Aliases.Of, Aliases.Overruled(), types.Keys, o1, o2);
    TidyTable(types, o1);
  }
}
