/**
 Narrowing a spec to the fields its user declared (web/src/utils/fieldFilter.ts).

 Values are JSON values; a record lists its own fields in order. `Parser` is the browser's JSON parser, applied to the
 keys of a FieldsV1 set.
 */
module FieldFilter {
  import opened Wrappers

  datatype Value =
    | Null
    | Bool(b: bool)
    | Num(n: real)
    | Str(s: string)
    | Arr(items: seq<Value>)
    | Rec(fields: seq<Field>)

  datatype Field = Field(key: string, value: Value)
  type FieldSet = seq<Field>
  type Parser = string -> Option<Value>

  function Lookup(fields: seq<Field>, key: string): (r: Option<Value>)
    ensures r.Some? ==> Field(key, r.value) in fields
    ensures r.None? ==> forall i | 0 <= i < |fields| :: fields[i].key != key
    decreases fields
  {
    if fields == [] then None
    else
      var last := fields[|fields| - 1];
      if last.key == key then Some(last.value) else Lookup(fields[..|fields| - 1], key)
  }

  ghost predicate DistinctKeys(fields: seq<Field>) {
    forall i, j | 0 <= i < j < |fields| :: fields[i].key != fields[j].key
  }

  /** No record names a field twice, at any depth. */
  ghost predicate WellFormed(v: Value)
    decreases v
  {
    match v
    case Arr(items) => forall i | 0 <= i < |items| :: WellFormed(items[i])
    case Rec(fields) => DistinctKeys(fields) && forall i | 0 <= i < |fields| :: WellFormed(fields[i].value)
    case _ => true
  }

  predicate IsEmpty(v: Value) {
    v == Null || v == Str("") || v == Arr([]) || v == Rec([])
  }

  /** JavaScript's ===, on values of two different documents: only primitives are ever the same. */
  predicate Same(a: Value, b: Value) {
    a == b && !a.Arr? && !a.Rec?
  }

  // ---------------------------------------------------------------- pruneEmpty

  function Pruned(v: Value): Value
    decreases v
  {
    match v
    case Arr(items) => Arr(PrunedItems(items))
    case Rec(fields) => Rec(PrunedFields(fields))
    case _ => v
  }

  function PrunedItems(items: seq<Value>): seq<Value>
    decreases items
  {
    if items == [] then []
    else
      var front, last := PrunedItems(items[..|items| - 1]), Pruned(items[|items| - 1]);
      if IsEmpty(last) then front else front + [last]
  }

  function PrunedFields(fields: seq<Field>): seq<Field>
    decreases fields
  {
    if fields == [] then []
    else
      var front, last := PrunedFields(fields[..|fields| - 1]), fields[|fields| - 1];
      var value := Pruned(last.value);
      if IsEmpty(value) then front else front + [Field(last.key, value)]
  }

  method PruneEmpty(v: Value) returns (r: Value)
    ensures r == Pruned(v)
    decreases v
  {
    match v {
      case Arr(items) =>
        var out: seq<Value> := [];
        for i := 0 to |items|
          invariant out == PrunedItems(items[..i])
        {
          assert items[..i + 1][..i] == items[..i];
          var child := PruneEmpty(items[i]);
          if !IsEmpty(child) {
            out := out + [child];
          }
        }
        assert items[..|items|] == items;
        return Arr(out);
      case Rec(fields) =>
        var out: seq<Field> := [];
        for i := 0 to |fields|
          invariant out == PrunedFields(fields[..i])
        {
          assert fields[..i + 1][..i] == fields[..i];
          var pruned := PruneEmpty(fields[i].value);
          if !IsEmpty(pruned) {
            out := out + [Field(fields[i].key, pruned)];
          }
        }
        assert fields[..|fields|] == fields;
        return Rec(out);
      case _ => return v;
    }
  }

  lemma {:induction false} PruningTwice(v: Value)
    ensures Pruned(Pruned(v)) == Pruned(v)
    decreases v
  {
    match v
    case Arr(items) => PruningItemsTwice(items);
    case Rec(fields) => PruningFieldsTwice(fields);
    case _ =>
  }

  lemma {:induction false} PruningItemsTwice(items: seq<Value>)
    ensures PrunedItems(PrunedItems(items)) == PrunedItems(items)
    decreases items
  {
    if items != [] {
      var front, last := items[..|items| - 1], items[|items| - 1];
      PruningItemsTwice(front);
      PruningTwice(last);
      var done := PrunedItems(front);
      assert (done + [Pruned(last)])[..|done|] == done;
    }
  }

  lemma {:induction false} PruningFieldsTwice(fields: seq<Field>)
    ensures PrunedFields(PrunedFields(fields)) == PrunedFields(fields)
    decreases fields
  {
    if fields != [] {
      var front, last := fields[..|fields| - 1], fields[|fields| - 1];
      PruningFieldsTwice(front);
      PruningTwice(last.value);
      var done := PrunedFields(front);
      assert (done + [Field(last.key, Pruned(last.value))])[..|done|] == done;
    }
  }

  // ---------------------------------------------------------------- embedding

  /** x is y with parts left out: fewer fields, fewer list elements in the same order, and the same leaves. */
  predicate Embeds(x: Value, y: Value)
    decreases y
  {
    match y
    case Arr(ys) => x.Arr? && EmbedsItems(x.items, ys)
    case Rec(ys) => x.Rec? && EmbedsFields(x.fields, ys)
    case _ => x == y
  }

  predicate EmbedsItems(xs: seq<Value>, ys: seq<Value>)
    decreases ys
  {
    if xs == [] then true
    else if ys == [] then false
    else
      var x, y := xs[|xs| - 1], ys[|ys| - 1];
      || (Embeds(x, y) && EmbedsItems(xs[..|xs| - 1], ys[..|ys| - 1]))
      || EmbedsItems(xs, ys[..|ys| - 1])
  }

  predicate EmbedsFields(xs: seq<Field>, ys: seq<Field>)
    decreases ys
  {
    if xs == [] then true
    else if ys == [] then false
    else
      var x, y := xs[|xs| - 1], ys[|ys| - 1];
      || (x.key == y.key && Embeds(x.value, y.value) && EmbedsFields(xs[..|xs| - 1], ys[..|ys| - 1]))
      || EmbedsFields(xs, ys[..|ys| - 1])
  }

  lemma {:induction false} EmbedsItself(v: Value)
    ensures Embeds(v, v)
    decreases v
  {
    match v
    case Arr(items) => ItemsEmbed(items);
    case Rec(fields) => FieldsEmbed(fields);
    case _ =>
  }

  lemma {:induction false} ItemsEmbed(items: seq<Value>)
    ensures EmbedsItems(items, items)
    decreases items
  {
    if items != [] {
      EmbedsItself(items[|items| - 1]);
      ItemsEmbed(items[..|items| - 1]);
    }
  }

  lemma {:induction false} FieldsEmbed(fields: seq<Field>)
    ensures EmbedsFields(fields, fields)
    decreases fields
  {
    if fields != [] {
      EmbedsItself(fields[|fields| - 1].value);
      FieldsEmbed(fields[..|fields| - 1]);
    }
  }

  lemma {:induction false} EmbeddingChains(x: Value, y: Value, z: Value)
    requires Embeds(x, y) && Embeds(y, z)
    ensures Embeds(x, z)
    decreases z
  {
    match z
    case Arr(zs) => ItemsChain(x.items, y.items, zs);
    case Rec(zs) => FieldsChain(x.fields, y.fields, zs);
    case _ =>
  }

  lemma {:induction false} ItemsChain(xs: seq<Value>, ys: seq<Value>, zs: seq<Value>)
    requires EmbedsItems(xs, ys) && EmbedsItems(ys, zs)
    ensures EmbedsItems(xs, zs)
    decreases zs
  {
    if xs != [] {
      var x, y, z := xs[|xs| - 1], ys[|ys| - 1], zs[|zs| - 1];
      var ys1, zs1 := ys[..|ys| - 1], zs[..|zs| - 1];
      if EmbedsItems(ys, zs1) {
        ItemsChain(xs, ys, zs1);
      } else if EmbedsItems(xs, ys1) {
        ItemsChain(xs, ys1, zs1);
      } else {
        EmbeddingChains(x, y, z);
        ItemsChain(xs[..|xs| - 1], ys1, zs1);
      }
    }
  }

  lemma {:induction false} FieldsChain(xs: seq<Field>, ys: seq<Field>, zs: seq<Field>)
    requires EmbedsFields(xs, ys) && EmbedsFields(ys, zs)
    ensures EmbedsFields(xs, zs)
    decreases zs
  {
    if xs != [] {
      var x, y, z := xs[|xs| - 1], ys[|ys| - 1], zs[|zs| - 1];
      var ys1, zs1 := ys[..|ys| - 1], zs[..|zs| - 1];
      if EmbedsFields(ys, zs1) {
        FieldsChain(xs, ys, zs1);
      } else if EmbedsFields(xs, ys1) {
        FieldsChain(xs, ys1, zs1);
      } else {
        EmbeddingChains(x.value, y.value, z.value);
        FieldsChain(xs[..|xs| - 1], ys1, zs1);
      }
    }
  }

  lemma ItemAdded(xs: seq<Value>, ys: seq<Value>, x: Value)
    requires ys != [] && EmbedsItems(xs, ys[..|ys| - 1])
    ensures EmbedsItems(xs, ys)
    ensures Embeds(x, ys[|ys| - 1]) ==> EmbedsItems(xs + [x], ys)
  {
    assert (xs + [x])[..|xs|] == xs;
  }

  lemma FieldAdded(xs: seq<Field>, ys: seq<Field>, x: Value)
    requires ys != [] && EmbedsFields(xs, ys[..|ys| - 1])
    ensures EmbedsFields(xs, ys)
    ensures Embeds(x, ys[|ys| - 1].value) ==> EmbedsFields(xs + [Field(ys[|ys| - 1].key, x)], ys)
  {
    assert (xs + [Field(ys[|ys| - 1].key, x)])[..|xs|] == xs;
  }

  lemma {:induction false} PrunedEmbeds(v: Value)
    ensures Embeds(Pruned(v), v)
    decreases v
  {
    match v
    case Arr(items) => PrunedItemsEmbed(items);
    case Rec(fields) => PrunedFieldsEmbed(fields);
    case _ =>
  }

  lemma {:induction false} PrunedItemsEmbed(items: seq<Value>)
    ensures EmbedsItems(PrunedItems(items), items)
    decreases items
  {
    if items != [] {
      var front, last := items[..|items| - 1], items[|items| - 1];
      PrunedItemsEmbed(front);
      PrunedEmbeds(last);
      ItemAdded(PrunedItems(front), items, Pruned(last));
    }
  }

  lemma {:induction false} PrunedFieldsEmbed(fields: seq<Field>)
    ensures EmbedsFields(PrunedFields(fields), fields)
    decreases fields
  {
    if fields != [] {
      var front, last := fields[..|fields| - 1], fields[|fields| - 1];
      PrunedFieldsEmbed(front);
      PrunedEmbeds(last.value);
      FieldAdded(PrunedFields(front), fields, Pruned(last.value));
    }
  }

  // ---------------------------------------------------------------- signal 1: the last applied manifest

  const MERGE_KEYS: seq<string> :=
    ["name", "key", "containerPort", "port", "mountPath", "devicePath", "ip", "topologyKey", "path"]

  /** Array.findIndex: the first record of the template with this field. */
  function FindWith(template: seq<Value>, key: string, value: Value): (r: Option<nat>)
    ensures r.Some? ==> r.value < |template| && template[r.value].Rec?
    decreases |template|
  {
    if template == [] then None
    else
      var t := template[0];
      if t.Rec? && Lookup(t.fields, key).Some? && Same(Lookup(t.fields, key).value, value) then Some(0)
      else
        match FindWith(template[1..], key, value)
        case None => None
        case Some(i) => assert template[1..][i] == template[i + 1]; Some(i + 1)
  }

  /** The manifest element a live one goes back to, by the first merge key that finds one. */
  function CorrespondingIndex(el: seq<Field>, template: seq<Value>, keys: seq<string>): (r: Option<nat>)
    ensures r.Some? ==> r.value < |template| && template[r.value].Rec?
    decreases |keys|
  {
    if keys == [] then None
    else
      match Lookup(el, keys[0])
      case None => CorrespondingIndex(el, template, keys[1..])
      case Some(value) =>
        var found := FindWith(template, keys[0], value);
        if found.Some? then found else CorrespondingIndex(el, template, keys[1..])
  }

  /** ... or by its place, if the lists are as long. */
  function TemplateFor(el: seq<Field>, i: nat, total: nat, template: seq<Value>): (r: Option<nat>)
    ensures r.Some? ==> r.value < |template|
  {
    var ti := CorrespondingIndex(el, template, MERGE_KEYS);
    if ti.Some? then ti
    else if |template| == total && i < |template| && template[i].Rec? then Some(i) else None
  }

  predicate AllRecs(items: seq<Value>) {
    forall i | 0 <= i < |items| :: items[i].Rec?
  }

  function Intersected(live: Value, template: Value): Value
    decreases live
  {
    if live.Arr? && template.Arr? then
      if !AllRecs(live.items) then live
      else Arr(IntersectedItems(live.items, |live.items|, template.items))
    else if live.Rec? && template.Rec? then Rec(IntersectedFields(live.fields, template.fields))
    else live
  }

  function IntersectedItems(live: seq<Value>, total: nat, template: seq<Value>): seq<Value>
    requires AllRecs(live)
    decreases live
  {
    if live == [] then []
    else
      var n := |live| - 1;
      var front := IntersectedItems(live[..n], total, template);
      match TemplateFor(live[n].fields, n, total, template)
      case None => front
      case Some(ti) => front + [Intersected(live[n], template[ti])]
  }

  function IntersectedFields(live: seq<Field>, template: seq<Field>): seq<Field>
    decreases live
  {
    if live == [] then []
    else
      var last := live[|live| - 1];
      var front := IntersectedFields(live[..|live| - 1], template);
      match Lookup(template, last.key)
      case None => front
      case Some(t) => front + [Field(last.key, Intersected(last.value, t))]
  }

  method IntersectWithTemplate(live: Value, template: Value) returns (r: Value)
    ensures r == Intersected(live, template)
    decreases live
  {
    if live.Arr? && template.Arr? {
      if !AllRecs(live.items) {
        return live;
      }
      var out: seq<Value> := [];
      for i := 0 to |live.items|
        invariant out == IntersectedItems(live.items[..i], |live.items|, template.items)
      {
        assert live.items[..i + 1][..i] == live.items[..i];
        var ti := TemplateFor(live.items[i].fields, i, |live.items|, template.items);
        if ti.None? {
          continue;
        }
        var child := IntersectWithTemplate(live.items[i], template.items[ti.value]);
        out := out + [child];
      }
      assert live.items[..|live.items|] == live.items;
      return Arr(out);
    }
    if live.Rec? && template.Rec? {
      var out: seq<Field> := [];
      for i := 0 to |live.fields|
        invariant out == IntersectedFields(live.fields[..i], template.fields)
      {
        assert live.fields[..i + 1][..i] == live.fields[..i];
        var t := Lookup(template.fields, live.fields[i].key);
        if t.Some? {
          var child := IntersectWithTemplate(live.fields[i].value, t.value);
          out := out + [Field(live.fields[i].key, child)];
        }
      }
      assert live.fields[..|live.fields|] == live.fields;
      return Rec(out);
    }
    return live;
  }

  lemma {:induction false} IntersectedEmbeds(live: Value, template: Value)
    ensures Embeds(Intersected(live, template), live)
    decreases live
  {
    EmbedsItself(live);
    if live.Arr? && template.Arr? && AllRecs(live.items) {
      IntersectedItemsEmbed(live.items, |live.items|, template.items);
    } else if live.Rec? && template.Rec? {
      IntersectedFieldsEmbed(live.fields, template.fields);
    }
  }

  lemma {:induction false} IntersectedItemsEmbed(live: seq<Value>, total: nat, template: seq<Value>)
    requires AllRecs(live)
    ensures EmbedsItems(IntersectedItems(live, total, template), live)
    decreases live
  {
    if live != [] {
      var n := |live| - 1;
      IntersectedItemsEmbed(live[..n], total, template);
      match TemplateFor(live[n].fields, n, total, template)
      case None => ItemAdded(IntersectedItems(live[..n], total, template), live, Null);
      case Some(ti) =>
        IntersectedEmbeds(live[n], template[ti]);
        ItemAdded(IntersectedItems(live[..n], total, template), live, Intersected(live[n], template[ti]));
    }
  }

  lemma {:induction false} IntersectedFieldsEmbed(live: seq<Field>, template: seq<Field>)
    ensures EmbedsFields(IntersectedFields(live, template), live)
    decreases live
  {
    if live != [] {
      var front, last := live[..|live| - 1], live[|live| - 1];
      IntersectedFieldsEmbed(front, template);
      match Lookup(template, last.key)
      case None => FieldAdded(IntersectedFields(front, template), live, Null);
      case Some(t) =>
        IntersectedEmbeds(last.value, t);
        FieldAdded(IntersectedFields(front, template), live, Intersected(last.value, t));
    }
  }

  // ---------------------------------------------------------------- signal 2: field ownership

  /** An empty set of markers owns everything below. */
  predicate OwnsWhole(fs: FieldSet) {
    forall i | 0 <= i < |fs| :: fs[i].key == "."
  }

  predicate StartsWith(s: string, a: char, b: char) {
    |s| >= 2 && s[0] == a && s[1] == b
  }

  /** A key entry names a record by some of its fields. */
  predicate KeyMatches(parse: Parser, el: seq<Field>, keyJson: string) {
    var parsed := parse(keyJson);
    && parsed.Some? && parsed.value.Rec?
    && forall i | 0 <= i < |parsed.value.fields| ::
         var f := parsed.value.fields[i];
         Lookup(el, f.key).Some? && Same(Lookup(el, f.key).value, f.value)
  }

  /** The entry is for this list element: a key for a record, a value for anything else. */
  predicate EntryMatches(parse: Parser, el: Value, key: string) {
    if el.Rec? then StartsWith(key, 'k', ':') && KeyMatches(parse, el.fields, key[2..])
    else StartsWith(key, 'v', ':') && parse(key[2..]).Some? && Same(parse(key[2..]).value, el)
  }

  /** A node that is no record counts as empty. */
  function AsSet(v: Value): (fs: FieldSet)
    ensures v.Rec? ==> fs == v.fields
  {
    if v.Rec? then v.fields else []
  }

  /** The first entry for this element. */
  function FirstMatch(parse: Parser, el: Value, fs: FieldSet): (r: Option<Field>)
    ensures r.Some? ==> r.value in fs && EntryMatches(parse, el, r.value.key)
    decreases |fs|
  {
    if fs == [] then None
    else if EntryMatches(parse, el, fs[0].key) then Some(fs[0])
    else FirstMatch(parse, el, fs[1..])
  }

  /** What an entry owns of its element. */
  function OwnedBy(el: Value, entry: Value): FieldSet {
    if el.Rec? then AsSet(entry) else []
  }

  function MatchElement(parse: Parser, el: Value, fs: FieldSet): Option<FieldSet> {
    match FirstMatch(parse, el, fs)
    case None => None
    case Some(entry) => Some(OwnedBy(el, entry.value))
  }

  /** What a set owns of a field of a record. */
  function OwnedField(fs: FieldSet, key: string): Option<FieldSet> {
    match Lookup(fs, "f:" + key)
    case Some(Rec(child)) => Some(child)
    case _ => None
  }

  function Filtered(parse: Parser, v: Value, fs: FieldSet): Value
    decreases v
  {
    if OwnsWhole(fs) then v
    else
      match v
      case Arr(items) => Arr(FilteredItems(parse, items, fs))
      case Rec(fields) => Rec(FilteredFields(parse, fields, fs))
      case _ => v
  }

  function FilteredItems(parse: Parser, items: seq<Value>, fs: FieldSet): seq<Value>
    decreases items
  {
    if items == [] then []
    else
      var last := items[|items| - 1];
      var front := FilteredItems(parse, items[..|items| - 1], fs);
      match MatchElement(parse, last, fs)
      case None => front
      case Some(child) => front + [Filtered(parse, last, child)]
  }

  function FilteredFields(parse: Parser, fields: seq<Field>, fs: FieldSet): seq<Field>
    decreases fields
  {
    if fields == [] then []
    else
      var last := fields[|fields| - 1];
      var front := FilteredFields(parse, fields[..|fields| - 1], fs);
      match OwnedField(fs, last.key)
      case None => front
      case Some(child) => front + [Field(last.key, Filtered(parse, last.value, child))]
  }

  method FilterValue(parse: Parser, v: Value, fs: FieldSet) returns (r: Value)
    ensures r == Filtered(parse, v, fs)
    decreases v
  {
    if OwnsWhole(fs) {
      return v;
    }
    match v {
      case Arr(items) =>
        var out: seq<Value> := [];
        for i := 0 to |items|
          invariant out == FilteredItems(parse, items[..i], fs)
        {
          assert items[..i + 1][..i] == items[..i];
          var childFs := MatchElement(parse, items[i], fs);
          if childFs.Some? {
            var child := FilterValue(parse, items[i], childFs.value);
            out := out + [child];
          }
        }
        assert items[..|items|] == items;
        return Arr(out);
      case Rec(fields) =>
        var out: seq<Field> := [];
        for i := 0 to |fields|
          invariant out == FilteredFields(parse, fields[..i], fs)
        {
          assert fields[..i + 1][..i] == fields[..i];
          var childFs := OwnedField(fs, fields[i].key);
          if childFs.Some? {
            var child := FilterValue(parse, fields[i].value, childFs.value);
            out := out + [Field(fields[i].key, child)];
          }
        }
        assert fields[..|fields|] == fields;
        return Rec(out);
      case _ => return v;
    }
  }

  lemma {:induction false} FilteredEmbeds(parse: Parser, v: Value, fs: FieldSet)
    ensures Embeds(Filtered(parse, v, fs), v)
    decreases v
  {
    EmbedsItself(v);
    if !OwnsWhole(fs) {
      match v
      case Arr(items) => FilteredItemsEmbed(parse, items, fs);
      case Rec(fields) => FilteredFieldsEmbed(parse, fields, fs);
      case _ =>
    }
  }

  lemma {:induction false} FilteredItemsEmbed(parse: Parser, items: seq<Value>, fs: FieldSet)
    ensures EmbedsItems(FilteredItems(parse, items, fs), items)
    decreases items
  {
    if items != [] {
      var front, last := items[..|items| - 1], items[|items| - 1];
      FilteredItemsEmbed(parse, front, fs);
      match MatchElement(parse, last, fs)
      case None => ItemAdded(FilteredItems(parse, front, fs), items, Null);
      case Some(child) =>
        FilteredEmbeds(parse, last, child);
        ItemAdded(FilteredItems(parse, front, fs), items, Filtered(parse, last, child));
    }
  }

  lemma {:induction false} FilteredFieldsEmbed(parse: Parser, fields: seq<Field>, fs: FieldSet)
    ensures EmbedsFields(FilteredFields(parse, fields, fs), fields)
    decreases fields
  {
    if fields != [] {
      var front, last := fields[..|fields| - 1], fields[|fields| - 1];
      FilteredFieldsEmbed(parse, front, fs);
      match OwnedField(fs, last.key)
      case None => FieldAdded(FilteredFields(parse, front, fs), fields, Null);
      case Some(child) =>
        FilteredEmbeds(parse, last.value, child);
        FieldAdded(FilteredFields(parse, front, fs), fields, Filtered(parse, last.value, child));
    }
  }

  // ---------------------------------------------------------------- merging two sets

  /**
   What becomes of an entry of a, if b has one of the same key. A node that is no record counts as owning nothing
   known.
   */
  function MergedEntry(av: Value, bv: Option<Value>): Value
    decreases av, 0
  {
    if av.Rec? && bv.Some? && bv.value.Rec? then Rec(Merged(av.fields, bv.value.fields))
    else if av.Rec? then av
    else OnlyEntry(bv)
  }

  function OnlyEntry(bv: Option<Value>): Value {
    if bv.Some? && bv.value.Rec? then bv.value else Rec([])
  }

  function Merged(a: FieldSet, b: FieldSet): FieldSet
    decreases a, 1
  {
    if OwnsWhole(a) || OwnsWhole(b) then [] else MergedA(a, b) + MergedB(a, b)
  }

  /** The entries of a, joined with those of b of the same key. */
  function MergedA(a: FieldSet, b: FieldSet): FieldSet
    decreases a, 0
  {
    if a == [] then []
    else
      var last := a[|a| - 1];
      MergedA(a[..|a| - 1], b) + [Field(last.key, MergedEntry(last.value, Lookup(b, last.key)))]
  }

  /** The entries only b has. */
  function MergedB(a: FieldSet, b: FieldSet): FieldSet
    decreases |b|
  {
    if b == [] then []
    else
      var last := b[|b| - 1];
      var front := MergedB(a, b[..|b| - 1]);
      if Lookup(a, last.key).Some? then front else front + [Field(last.key, OnlyEntry(Some(last.value)))]
  }

  method MergeFieldSets(a: FieldSet, b: FieldSet) returns (out: FieldSet)
    ensures out == Merged(a, b)
    decreases a
  {
    if OwnsWhole(a) || OwnsWhole(b) {
      return [];
    }
    out := [];
    for i := 0 to |a|
      invariant out == MergedA(a[..i], b)
    {
      assert a[..i + 1][..i] == a[..i];
      var bv := Lookup(b, a[i].key);
      if a[i].value.Rec? && bv.Some? && bv.value.Rec? {
        var both := MergeFieldSets(a[i].value.fields, bv.value.fields);
        out := out + [Field(a[i].key, Rec(both))];
      } else {
        out := out + [Field(a[i].key, if a[i].value.Rec? then a[i].value else OnlyEntry(bv))];
      }
    }
    assert a[..|a|] == a;
    for i := 0 to |b|
      invariant out == MergedA(a, b) + MergedB(a, b[..i])
    {
      assert b[..i + 1][..i] == b[..i];
      if Lookup(a, b[i].key).None? {
        out := out + [Field(b[i].key, OnlyEntry(Some(b[i].value)))];
      }
    }
    assert b[..|b|] == b;
  }

  // ---------------------------------------------------------------- which paths a set keeps

  datatype Step = Key(key: string) | Index(i: nat)
  type Path = seq<Step>

  /** The path leads somewhere in the value. */
  predicate Leads(v: Value, p: Path)
    decreases |p|
  {
    if p == [] then true
    else
      match (v, p[0])
      case (Arr(items), Index(i)) => i < |items| && Leads(items[i], p[1..])
      case (Rec(fields), Key(k)) => Lookup(fields, k).Some? && Leads(Lookup(fields, k).value, p[1..])
      case _ => false
  }

  /** The set owns what is at the path, or something below or above it. */
  predicate Keeps(parse: Parser, v: Value, fs: FieldSet, p: Path)
    decreases |p|
  {
    if p == [] then true
    else if OwnsWhole(fs) then Leads(v, p)
    else
      match (v, p[0])
      case (Arr(items), Index(i)) => i < |items| && KeepsBelow(parse, items[i], MatchElement(parse, items[i], fs), p)
      case (Rec(fields), Key(k)) => Lookup(fields, k).Some? &&
          KeepsBelow(parse, Lookup(fields, k).value, OwnedField(fs, k), p)
      case _ => false
  }

  predicate KeepsBelow(parse: Parser, v: Value, fs: Option<FieldSet>, p: Path)
    requires p != []
    decreases |p|, 0
  {
    fs.Some? && Keeps(parse, v, fs.value, p[1..])
  }

  /** The value without the parts whose paths are not kept. */
  function Restricted(v: Value, keep: Path -> bool): Value
    decreases v
  {
    match v
    case Arr(items) => Arr(RestrictedItems(items, keep))
    case Rec(fields) => Rec(RestrictedFields(fields, keep))
    case _ => v
  }

  function RestrictedItems(items: seq<Value>, keep: Path -> bool): seq<Value>
    decreases items
  {
    if items == [] then []
    else
      var n := |items| - 1;
      var front := RestrictedItems(items[..n], keep);
      if keep([Index(n)]) then front + [Restricted(items[n], p => keep([Index(n)] + p))] else front
  }

  function RestrictedFields(fields: seq<Field>, keep: Path -> bool): seq<Field>
    decreases fields
  {
    if fields == [] then []
    else
      var last := fields[|fields| - 1];
      var front := RestrictedFields(fields[..|fields| - 1], keep);
      if keep([Key(last.key)])
      then front + [Field(last.key, Restricted(last.value, p => keep([Key(last.key)] + p)))]
      else front
  }

  lemma {:induction false} LookupAt(fields: seq<Field>, i: nat)
    requires DistinctKeys(fields) && i < |fields|
    ensures Lookup(fields, fields[i].key) == Some(fields[i].value)
  {
    if i < |fields| - 1 {
      LookupAt(fields[..|fields| - 1], i);
    }
  }

  lemma Below(step: Step, p: Path)
    ensures ([step] + p)[1..] == p && ([step] + p)[0] == step
  {
  }

  /** Keeping every path there is keeps everything. */
  lemma {:induction false} KeepingAll(v: Value, keep: Path -> bool)
    requires WellFormed(v) && forall p | Leads(v, p) :: keep(p)
    ensures Restricted(v, keep) == v
    decreases v
  {
    match v
    case Arr(items) =>
      forall i: nat, p | i < |items| && Leads(items[i], p) ensures keep([Index(i)] + p) {
        Below(Index(i), p);
        assert Leads(v, [Index(i)] + p);
      }
      KeepingAllItems(items, keep);
    case Rec(fields) =>
      forall i: nat, p | i < |fields| && Leads(fields[i].value, p) ensures keep([Key(fields[i].key)] + p) {
        Below(Key(fields[i].key), p);
        LookupAt(fields, i);
        assert Leads(v, [Key(fields[i].key)] + p);
      }
      KeepingAllFields(fields, keep);
    case _ =>
  }

  lemma {:induction false} KeepingAllItems(items: seq<Value>, keep: Path -> bool)
    requires forall i | 0 <= i < |items| :: WellFormed(items[i])
    requires forall i: nat, p | i < |items| && Leads(items[i], p) :: keep([Index(i)] + p)
    ensures RestrictedItems(items, keep) == items
    decreases items
  {
    if items != [] {
      var n := |items| - 1;
      KeepingAllItems(items[..n], keep);
      assert [Index(n)] + [] == [Index(n)] && Leads(items[n], []);
      KeepingAll(items[n], p => keep([Index(n)] + p));
    }
  }

  lemma {:induction false} KeepingAllFields(fields: seq<Field>, keep: Path -> bool)
    requires forall i | 0 <= i < |fields| :: WellFormed(fields[i].value)
    requires forall i: nat, p | i < |fields| && Leads(fields[i].value, p) :: keep([Key(fields[i].key)] + p)
    ensures RestrictedFields(fields, keep) == fields
    decreases fields
  {
    if fields != [] {
      var n := |fields| - 1;
      var k := fields[n].key;
      KeepingAllFields(fields[..n], keep);
      assert [Key(k)] + [] == [Key(k)] && Leads(fields[n].value, []);
      KeepingAll(fields[n].value, p => keep([Key(k)] + p));
    }
  }

  /** Filtering a value by a set is restricting it to the paths the set keeps. */
  lemma {:induction false} FilteringRestricts(parse: Parser, v: Value, fs: FieldSet, keep: Path -> bool)
    requires WellFormed(v) && forall p :: keep(p) == Keeps(parse, v, fs, p)
    ensures Filtered(parse, v, fs) == Restricted(v, keep)
    decreases v
  {
    if OwnsWhole(fs) {
      KeepingAll(v, keep);
    } else {
      match v
      case Arr(items) =>
        forall i: nat, p | i < |items|
          ensures keep([Index(i)] + p) == OwnsBelow(parse, items[i], MatchElement(parse, items[i], fs), p) {
          KeepsIndex(parse, items, fs, i, p);
        }
        FilteringItems(parse, items, fs, keep);
      case Rec(fields) =>
        forall i: nat, p | i < |fields|
          ensures keep([Key(fields[i].key)] + p) ==
                  OwnsBelow(parse, fields[i].value, OwnedField(fs, fields[i].key), p)
        {
          KeepsKey(parse, fields, fs, i, p);
        }
        FilteringFields(parse, fields, fs, keep);
      case _ =>
    }
  }

  lemma KeepsIndex(parse: Parser, items: seq<Value>, fs: FieldSet, i: nat, p: Path)
    requires i < |items| && !OwnsWhole(fs)
    ensures Keeps(parse, Arr(items), fs, [Index(i)] + p) ==
        OwnsBelow(parse, items[i], MatchElement(parse, items[i], fs), p)
  {
    Below(Index(i), p);
  }

  lemma KeepsKey(parse: Parser, fields: seq<Field>, fs: FieldSet, i: nat, p: Path)
    requires DistinctKeys(fields) && i < |fields| && !OwnsWhole(fs)
    ensures Keeps(parse, Rec(fields), fs, [Key(fields[i].key)] + p)
         == OwnsBelow(parse, fields[i].value, OwnedField(fs, fields[i].key), p)
  {
    Below(Key(fields[i].key), p);
    LookupAt(fields, i);
  }

  predicate OwnsBelow(parse: Parser, v: Value, fs: Option<FieldSet>, p: Path) {
    fs.Some? && Keeps(parse, v, fs.value, p)
  }

  lemma {:induction false} FilteringItems(parse: Parser, items: seq<Value>, fs: FieldSet, keep: Path -> bool)
    requires forall i | 0 <= i < |items| :: WellFormed(items[i])
    requires forall i: nat, p | i < |items| ::
        keep([Index(i)] + p) == OwnsBelow(parse, items[i], MatchElement(parse, items[i], fs), p)
    ensures FilteredItems(parse, items, fs) == RestrictedItems(items, keep)
    decreases items
  {
    if items != [] {
      var n := |items| - 1;
      FilteringItems(parse, items[..n], fs, keep);
      assert [Index(n)] + [] == [Index(n)];
      match MatchElement(parse, items[n], fs)
      case None => assert !OwnsBelow(parse, items[n], None, []);
      case Some(child) => FilteringRestricts(parse, items[n], child, p => keep([Index(n)] + p));
    }
  }

  lemma {:induction false} FilteringFields(parse: Parser, fields: seq<Field>, fs: FieldSet, keep: Path -> bool)
    requires forall i | 0 <= i < |fields| :: WellFormed(fields[i].value)
    requires forall i: nat, p | i < |fields| ::
        keep([Key(fields[i].key)] + p) == OwnsBelow(parse, fields[i].value, OwnedField(fs, fields[i].key), p)
    ensures FilteredFields(parse, fields, fs) == RestrictedFields(fields, keep)
    decreases fields
  {
    if fields != [] {
      var n := |fields| - 1;
      var k := fields[n].key;
      FilteringFields(parse, fields[..n], fs, keep);
      assert [Key(k)] + [] == [Key(k)];
      match OwnedField(fs, k)
      case None => assert !OwnsBelow(parse, fields[n].value, None, []);
      case Some(child) => FilteringRestricts(parse, fields[n].value, child, p => keep([Key(k)] + p));
    }
  }

  // ---------------------------------------------------------------- what pruning keeps

  /** Somewhere in the value there is something to show: a number, a boolean, or text that is not empty. */
  predicate HasLeaf(v: Value)
    decreases v
  {
    match v
    case Null => false
    case Str(s) => s != ""
    case Arr(items) => exists i | 0 <= i < |items| :: HasLeaf(items[i])
    case Rec(fields) => exists i | 0 <= i < |fields| :: HasLeaf(fields[i].value)
    case _ => true
  }

  lemma {:induction false} PrunedAwayExactly(v: Value)
    ensures IsEmpty(Pruned(v)) <==> !HasLeaf(v)
    decreases v
  {
    match v
    case Arr(items) => ItemsPrunedAway(items);
    case Rec(fields) => FieldsPrunedAway(fields);
    case _ =>
  }

  lemma {:induction false} ItemsPrunedAway(items: seq<Value>)
    ensures PrunedItems(items) == [] <==> forall i | 0 <= i < |items| :: !HasLeaf(items[i])
    decreases items
  {
    if items != [] {
      ItemsPrunedAway(items[..|items| - 1]);
      PrunedAwayExactly(items[|items| - 1]);
      assert items == items[..|items| - 1] + [items[|items| - 1]];
    }
  }

  lemma {:induction false} FieldsPrunedAway(fields: seq<Field>)
    ensures PrunedFields(fields) == [] <==> forall i | 0 <= i < |fields| :: !HasLeaf(fields[i].value)
    decreases fields
  {
    if fields != [] {
      FieldsPrunedAway(fields[..|fields| - 1]);
      PrunedAwayExactly(fields[|fields| - 1].value);
      assert fields == fields[..|fields| - 1] + [fields[|fields| - 1]];
    }
  }

  /** Everything on the way along the path holds something to show. */
  predicate Substantial(v: Value, p: Path)
    decreases |p|
  {
    if p == [] then true
    else
      match (v, p[0])
      case (Arr(items), Index(i)) => i < |items| && HasLeaf(items[i]) && Substantial(items[i], p[1..])
      case (Rec(fields), Key(k)) =>
        Lookup(fields, k).Some? && HasLeaf(Lookup(fields, k).value) && Substantial(Lookup(fields, k).value, p[1..])
      case _ => false
  }

  /** Pruning a value is restricting it to the paths along which there is something to show. */
  lemma {:induction false} PruningRestricts(v: Value, keep: Path -> bool)
    requires WellFormed(v) && forall p :: keep(p) == Substantial(v, p)
    ensures Pruned(v) == Restricted(v, keep)
    decreases v
  {
    match v
    case Arr(items) =>
      forall i: nat, p | i < |items| ensures keep([Index(i)] + p) == (HasLeaf(items[i]) && Substantial(items[i], p)) {
        Below(Index(i), p);
      }
      PruningItems(items, keep);
    case Rec(fields) =>
      forall i: nat, p | i < |fields|
        ensures keep([Key(fields[i].key)] + p) == (HasLeaf(fields[i].value) && Substantial(fields[i].value, p)) {
        Below(Key(fields[i].key), p);
        LookupAt(fields, i);
      }
      PruningFields(fields, keep);
    case _ =>
  }

  lemma {:induction false} PruningItems(items: seq<Value>, keep: Path -> bool)
    requires forall i | 0 <= i < |items| :: WellFormed(items[i])
    requires forall i: nat, p | i < |items| :: keep([Index(i)] + p) == (HasLeaf(items[i]) && Substantial(items[i], p))
    ensures PrunedItems(items) == RestrictedItems(items, keep)
    decreases items
  {
    if items != [] {
      var n := |items| - 1;
      PruningItems(items[..n], keep);
      PrunedAwayExactly(items[n]);
      assert [Index(n)] + [] == [Index(n)] && Substantial(items[n], []);
      if HasLeaf(items[n]) {
        PruningRestricts(items[n], p => keep([Index(n)] + p));
      }
    }
  }

  lemma {:induction false} PruningFields(fields: seq<Field>, keep: Path -> bool)
    requires forall i | 0 <= i < |fields| :: WellFormed(fields[i].value)
    requires forall i: nat, p | i < |fields| ::
               keep([Key(fields[i].key)] + p) == (HasLeaf(fields[i].value) && Substantial(fields[i].value, p))
    ensures PrunedFields(fields) == RestrictedFields(fields, keep)
    decreases fields
  {
    if fields != [] {
      var n := |fields| - 1;
      var k := fields[n].key;
      PruningFields(fields[..n], keep);
      PrunedAwayExactly(fields[n].value);
      assert [Key(k)] + [] == [Key(k)] && Substantial(fields[n].value, []);
      if HasLeaf(fields[n].value) {
        PruningRestricts(fields[n].value, p => keep([Key(k)] + p));
      }
    }
  }

  // ---------------------------------------------------------------- what a manifest declares

  /** The two records have the same primitive under the key. */
  predicate Shares(el: seq<Field>, t: Value, key: string) {
    t.Rec? && Lookup(el, key).Some? && Lookup(t.fields, key).Some? &&
        Same(Lookup(t.fields, key).value, Lookup(el, key).value)
  }

  lemma {:induction false} FindsFirst(el: seq<Field>, template: seq<Value>, key: string)
    requires Lookup(el, key).Some?
    ensures match FindWith(template, key, Lookup(el, key).value)
            case None => forall i | 0 <= i < |template| :: !Shares(el, template[i], key)
            case Some(r) => Shares(el, template[r], key) && forall i | 0 <= i < r :: !Shares(el, template[i], key)
    decreases |template|
  {
    if template != [] {
      FindsFirst(el, template[1..], key);
      assert template == [template[0]] + template[1..];
    }
  }

  /** A live element goes back to the first manifest element that shares the earliest merge key any of them shares. */
  ghost predicate Paired(el: seq<Field>, template: seq<Value>, keys: seq<string>, r: Option<nat>) {
    if keys == [] then r.None?
    else if exists i | 0 <= i < |template| :: Shares(el, template[i], keys[0]) then
      && r.Some? && r.value < |template| && Shares(el, template[r.value], keys[0])
      && forall i | 0 <= i < r.value :: !Shares(el, template[i], keys[0])
    else Paired(el, template, keys[1..], r)
  }

  lemma {:induction false} PairingIsExact(el: seq<Field>, template: seq<Value>, keys: seq<string>)
    ensures Paired(el, template, keys, CorrespondingIndex(el, template, keys))
    decreases |keys|
  {
    if keys != [] {
      PairingIsExact(el, template, keys[1..]);
      if Lookup(el, keys[0]).Some? {
        FindsFirst(el, template, keys[0]);
      }
    }
  }

  /** Two values are the same exactly if they are equal and neither a list nor a record. */
  lemma SameExactly(a: Value, b: Value)
    ensures Same(a, b) <==>
              match a
              case Arr(_) => false
              case Rec(_) => false
              case _ => a == b
  {
  }

  /**
   The manifest element a live one is narrowed by: the pair by the earliest of the nine merge keys that any of them
   shares with it, and if none does the one in its place, if the lists are as long and that is a record.
   */
  lemma TemplateExactly(el: seq<Field>, i: nat, total: nat, template: seq<Value>)
    ensures var keys :=
              ["name", "key", "containerPort", "port", "mountPath", "devicePath", "ip", "topologyKey", "path"];
            var pair, chosen := CorrespondingIndex(el, template, keys), TemplateFor(el, i, total, template);
            && Paired(el, template, keys, pair)
            && chosen ==
                 (if pair.Some? then pair
                  else if |template| == total && i < total && template[i].Rec? then Some(i) else None)
  {
    PairingIsExact(el, template, MERGE_KEYS);
    assert MERGE_KEYS
        == ["name", "key", "containerPort", "port", "mountPath", "devicePath", "ip", "topologyKey", "path"];
  }

  /** An entry names an element: a record by some of its fields, anything else by its value. */
  ghost predicate Names(parse: Parser, key: string, el: Value) {
    if el.Rec? then
      exists json :: key == "k:" + json && parse(json).Some? && parse(json).value.Rec? &&
        forall f | f in parse(json).value.fields ::
          Lookup(el.fields, f.key).Some? && Same(Lookup(el.fields, f.key).value, f.value)
    else exists json :: key == "v:" + json && parse(json).Some? && Same(parse(json).value, el)
  }

  lemma NamesExactly(parse: Parser, key: string, el: Value)
    ensures EntryMatches(parse, el, key) <==> Names(parse, key, el)
  {
    if EntryMatches(parse, el, key) {
      assert key == key[..2] + key[2..];
      assert key[..2] == if el.Rec? then "k:" else "v:";
    }
    forall json | key == "k:" + json || key == "v:" + json ensures key[2..] == json && |key| >= 2 {
    }
  }

  /** What a set owns of a list element: what the first entry that names it holds, or all of it if that is no record. */
  lemma MatchesExactly(parse: Parser, el: Value, fs: FieldSet, own: FieldSet)
    ensures MatchElement(parse, el, fs) == Some(own) <==>
              exists i ::
                && 0 <= i < |fs| && Names(parse, fs[i].key, el)
                && (forall j | 0 <= j < i :: !Names(parse, fs[j].key, el))
                && own == if el.Rec? && fs[i].value.Rec? then fs[i].value.fields else []
  {
    var n := FirstNamed(parse, el, fs);
  }

  /** Where the first entry that names an element stands, behind the last if none does. */
  lemma {:induction false} FirstNamed(parse: Parser, el: Value, fs: FieldSet) returns (n: nat)
    ensures n <= |fs| && forall j | 0 <= j < n :: !Names(parse, fs[j].key, el)
    ensures n < |fs| ==> Names(parse, fs[n].key, el) && FirstMatch(parse, el, fs) == Some(fs[n])
    ensures n == |fs| ==> FirstMatch(parse, el, fs) == None
    decreases |fs|
  {
    if fs == [] {
      return 0;
    }
    NamesExactly(parse, fs[0].key, el);
    if EntryMatches(parse, el, fs[0].key) {
      return 0;
    }
    var m := FirstNamed(parse, el, fs[1..]);
    forall j | 0 <= j < m + 1 ensures !Names(parse, fs[j].key, el) {
      assert j > 0 ==> fs[j] == fs[1..][j - 1];
    }
    return m + 1;
  }

  /** The manifest declares what is at the path, or something above it that it leaves open. */
  predicate Declared(live: Value, template: Value, p: Path)
    decreases |p|
  {
    if p == [] then true
    else if live.Arr? && template.Arr? && AllRecs(live.items) then
      p[0].Index? && p[0].i < |live.items| &&
      var i := p[0].i;
      var ti := TemplateFor(live.items[i].fields, i, |live.items|, template.items);
      ti.Some? && Declared(live.items[i], template.items[ti.value], p[1..])
    else if live.Rec? && template.Rec? then
      p[0].Key? && Lookup(live.fields, p[0].key).Some? && Lookup(template.fields, p[0].key).Some? &&
      Declared(Lookup(live.fields, p[0].key).value, Lookup(template.fields, p[0].key).value, p[1..])
    else Leads(live, p)
  }

  /** Narrowing a value by a manifest is restricting it to the paths the manifest declares. */
  lemma {:induction false} IntersectingRestricts(live: Value, template: Value, keep: Path -> bool)
    requires WellFormed(live) && forall p :: keep(p) == Declared(live, template, p)
    ensures Intersected(live, template) == Restricted(live, keep)
    decreases live
  {
    if live.Arr? && template.Arr? && AllRecs(live.items) {
      forall i: nat, p | i < |live.items|
        ensures keep([Index(i)] + p) == DeclaredItem(live.items[i], i, |live.items|, template.items, p) {
        Below(Index(i), p);
      }
      IntersectingItems(live.items, |live.items|, template.items, keep);
    } else if live.Rec? && template.Rec? {
      forall i: nat, p | i < |live.fields|
        ensures keep([Key(live.fields[i].key)] + p) == DeclaredField(live.fields[i], template.fields, p) {
        Below(Key(live.fields[i].key), p);
        LookupAt(live.fields, i);
      }
      IntersectingFields(live.fields, template.fields, keep);
    } else {
      KeepingAll(live, keep);
    }
  }

  predicate DeclaredItem(el: Value, i: nat, total: nat, template: seq<Value>, p: Path)
    requires el.Rec?
  {
    var ti := TemplateFor(el.fields, i, total, template);
    ti.Some? && Declared(el, template[ti.value], p)
  }

  predicate DeclaredField(f: Field, template: seq<Field>, p: Path) {
    Lookup(template, f.key).Some? && Declared(f.value, Lookup(template, f.key).value, p)
  }

  lemma {:induction false} IntersectingItems(live: seq<Value>, total: nat, template: seq<Value>, keep: Path -> bool)
    requires AllRecs(live) && forall i | 0 <= i < |live| :: WellFormed(live[i])
    requires forall i: nat, p | i < |live| :: keep([Index(i)] + p) == DeclaredItem(live[i], i, total, template, p)
    ensures IntersectedItems(live, total, template) == RestrictedItems(live, keep)
    decreases live
  {
    if live != [] {
      var n := |live| - 1;
      IntersectingItems(live[..n], total, template, keep);
      assert [Index(n)] + [] == [Index(n)];
      assert keep([Index(n)] + []) == DeclaredItem(live[n], n, total, template, []);
      match TemplateFor(live[n].fields, n, total, template)
      case None =>
      case Some(ti) => IntersectingRestricts(live[n], template[ti], p => keep([Index(n)] + p));
    }
  }

  lemma {:induction false} IntersectingFields(live: seq<Field>, template: seq<Field>, keep: Path -> bool)
    requires forall i | 0 <= i < |live| :: WellFormed(live[i].value)
    requires forall i: nat, p | i < |live| :: keep([Key(live[i].key)] + p) == DeclaredField(live[i], template, p)
    ensures IntersectedFields(live, template) == RestrictedFields(live, keep)
    decreases live
  {
    if live != [] {
      var n := |live| - 1;
      var k := live[n].key;
      IntersectingFields(live[..n], template, keep);
      assert [Key(k)] + [] == [Key(k)];
      assert keep([Key(k)] + []) == DeclaredField(live[n], template, []);
      match Lookup(template, k)
      case None =>
      case Some(t) => IntersectingRestricts(live[n].value, t, p => keep([Key(k)] + p));
    }
  }

  // ---------------------------------------------------------------- the merge law

  /** What a set has of an element of a list, or of a field of a record: all of it, if it owns the whole. */
  function ItemPart(parse: Parser, el: Value, fs: Option<FieldSet>): Option<FieldSet> {
    if fs.None? then None else if OwnsWhole(fs.value) then Some([]) else MatchElement(parse, el, fs.value)
  }

  function FieldPart(fs: Option<FieldSet>, key: string): Option<FieldSet> {
    if fs.None? then None else if OwnsWhole(fs.value) then Some([]) else OwnedField(fs.value, key)
  }

  /** What the first set owns of the value is owned by the second or by the third. */
  predicate Within(parse: Parser, v: Value, fs: Option<FieldSet>, x: Option<FieldSet>, y: Option<FieldSet>)
    decreases v
  {
    || fs.None?
    || (x.Some? && OwnsWhole(x.value))
    || (y.Some? && OwnsWhole(y.value))
    || ((x.Some? || y.Some?) &&
        match v
        case Arr(items) =>
          forall i | 0 <= i < |items| ::
            Within(parse, items[i], ItemPart(parse, items[i], fs), ItemPart(parse, items[i], x),
                   ItemPart(parse, items[i], y))
        case Rec(fields) =>
          forall i | 0 <= i < |fields| ::
            Within(parse, fields[i].value, FieldPart(fs, fields[i].key), FieldPart(x, fields[i].key),
                   FieldPart(y, fields[i].key))
        case _ => true)
  }

  /** A set owns all of the value that another one does. */
  predicate Covers(parse: Parser, v: Value, owner: FieldSet, fs: FieldSet) {
    Within(parse, v, Some(fs), Some(owner), None)
  }

  predicate OwnsAll(parse: Parser, v: Value, fs: FieldSet) {
    Covers(parse, v, fs, [])
  }

  /**
   What merging needs, all the way down to where a set owns the whole. A field of the value that a set names must be a
   record in one of the two: otherwise filtering ignores the node and merging makes it own the field.
   */
  predicate MergesRight(parse: Parser, v: Value, a: FieldSet, b: FieldSet)
    decreases v, 0
  {
    OwnsWhole(a) || OwnsWhole(b) ||
    match v
    case Arr(items) =>
      forall i | 0 <= i < |items| ::
        var x, y := FirstMatch(parse, items[i], a), FirstMatch(parse, items[i], b);
        items[i].Rec? && x.Some? && y.Some? ==>
          if x.value.key == y.value.key then SameKeyRight(parse, items[i], x.value.value, y.value.value)
          else OtherKeyRight(parse, items[i], x.value.value, Lookup(b, x.value.key), y.value.value)
    case Rec(fields) =>
      forall i | 0 <= i < |fields| ::
        FieldRight(parse, fields[i].value, Lookup(a, "f:" + fields[i].key), Lookup(b, "f:" + fields[i].key))
    case _ => true
  }

  /**
   Both sets know the element by the same key first. An entry that is a record in one set and not in the other must own
   all of its element: filtering lets the other own all of it, and merging keeps the record alone.
   */
  predicate SameKeyRight(parse: Parser, el: Value, x: Value, y: Value)
    decreases el, 1
  {
    if x.Rec? && y.Rec? then MergesRight(parse, el, x.fields, y.fields)
    else (x.Rec? ==> OwnsAll(parse, el, x.fields)) && (y.Rec? ==> OwnsAll(parse, el, y.fields))
  }

  /**
   The sets know it by different keys first: x in the one, y in the other. The merged set goes by the first key, and
   what the other set has under that one, if anything, is z, not y. So x must own what y does; or if there is a z, the
   two joined must own exactly what x and y own.
   */
  predicate OtherKeyRight(parse: Parser, el: Value, x: Value, z: Option<Value>, y: Value) {
    if z.None? then Covers(parse, el, AsSet(x), AsSet(y))
    else
      var joined := AsSet(MergedEntry(x, z));
      && Within(parse, el, Some(joined), Some(AsSet(x)), Some(AsSet(y)))
      && Covers(parse, el, joined, AsSet(x))
      && Covers(parse, el, joined, AsSet(y))
  }

  predicate FieldRight(parse: Parser, child: Value, x: Option<Value>, y: Option<Value>)
    decreases child, 1
  {
    if IsRecord(x) && IsRecord(y) then MergesRight(parse, child, x.value.fields, y.value.fields)
    else IsRecord(x) || IsRecord(y) || (x.None? && y.None?)
  }

  predicate IsRecord(x: Option<Value>) {
    x.Some? && x.value.Rec?
  }

  lemma LookupPlus(a: seq<Field>, x: Field, key: string)
    ensures Lookup(a + [x], key) == if x.key == key then Some(x.value) else Lookup(a, key)
  {
    assert (a + [x])[..|a|] == a;
  }

  lemma {:induction false} LookupConcat(a: seq<Field>, b: seq<Field>, key: string)
    ensures Lookup(a + b, key) == if Lookup(b, key).Some? then Lookup(b, key) else Lookup(a, key)
    decreases |b|
  {
    if b == [] {
      assert a + b == a;
    } else {
      var n := |b| - 1;
      LookupConcat(a, b[..n], key);
      assert a + b == (a + b[..n]) + [b[n]];
      LookupPlus(a + b[..n], b[n], key);
    }
  }

  lemma {:induction false} LookupMergedA(a: FieldSet, b: FieldSet, key: string)
    ensures Lookup(MergedA(a, b), key)
         == match Lookup(a, key) case None => None case Some(av) => Some(MergedEntry(av, Lookup(b, key)))
    decreases |a|
  {
    if a != [] {
      var front, last := a[..|a| - 1], a[|a| - 1];
      LookupMergedA(front, b, key);
      LookupPlus(MergedA(front, b), Field(last.key, MergedEntry(last.value, Lookup(b, last.key))), key);
    }
  }

  lemma {:induction false} LookupMergedB(a: FieldSet, b: FieldSet, key: string)
    ensures Lookup(MergedB(a, b), key)
         == if Lookup(a, key).Some? then None
            else match Lookup(b, key) case None => None case Some(bv) => Some(OnlyEntry(Some(bv)))
    decreases |b|
  {
    if b != [] {
      var front, last := b[..|b| - 1], b[|b| - 1];
      LookupMergedB(a, front, key);
      LookupPlus(MergedB(a, front), Field(last.key, OnlyEntry(Some(last.value))), key);
    }
  }

  /** What the merged set has under a key. */
  function Joined(av: Option<Value>, bv: Option<Value>): Option<Value> {
    if av.Some? then Some(MergedEntry(av.value, bv)) else if bv.Some? then Some(OnlyEntry(bv)) else None
  }

  lemma LookupMerged(a: FieldSet, b: FieldSet, key: string)
    requires !OwnsWhole(a) && !OwnsWhole(b)
    ensures Lookup(Merged(a, b), key) == Joined(Lookup(a, key), Lookup(b, key))
  {
    LookupMergedA(a, b, key);
    LookupMergedB(a, b, key);
    LookupConcat(MergedA(a, b), MergedB(a, b), key);
  }

  lemma {:induction false} Present(fields: seq<Field>, key: string)
    ensures Lookup(fields, key).Some? <==> exists i :: 0 <= i < |fields| && fields[i].key == key
  {
    if Lookup(fields, key).Some? {
      var f := Field(key, Lookup(fields, key).value);
      assert f in fields;
    }
  }

  lemma MergedOwnsPart(a: FieldSet, b: FieldSet)
    requires !OwnsWhole(a) && !OwnsWhole(b)
    ensures !OwnsWhole(Merged(a, b))
  {
    var i :| 0 <= i < |a| && a[i].key != ".";
    Present(a, a[i].key);
    LookupMerged(a, b, a[i].key);
    Present(Merged(a, b), a[i].key);
    var j :| 0 <= j < |Merged(a, b)| && Merged(a, b)[j].key == a[i].key;
  }

  lemma {:induction false} MergedADistinct(a: FieldSet, b: FieldSet)
    requires DistinctKeys(a)
    ensures |MergedA(a, b)| == |a| && forall i | 0 <= i < |a| :: MergedA(a, b)[i].key == a[i].key
    ensures DistinctKeys(MergedA(a, b))
    decreases |a|
  {
    if a != [] {
      MergedADistinct(a[..|a| - 1], b);
    }
  }

  lemma {:induction false} MergedBDistinct(a: FieldSet, b: FieldSet)
    requires DistinctKeys(b)
    ensures DistinctKeys(MergedB(a, b))
    ensures forall f | f in MergedB(a, b) :: Lookup(a, f.key).None? && Lookup(b, f.key).Some?
    decreases |b|
  {
    if b != [] {
      var front, last := b[..|b| - 1], b[|b| - 1];
      MergedBDistinct(a, front);
      forall f | f in MergedB(a, front) ensures f.key != last.key && Lookup(b, f.key).Some? {
        Present(front, f.key);
      }
    }
  }

  lemma MergedDistinct(a: FieldSet, b: FieldSet)
    requires DistinctKeys(a) && DistinctKeys(b)
    ensures DistinctKeys(Merged(a, b))
  {
    if !OwnsWhole(a) && !OwnsWhole(b) {
      MergedADistinct(a, b);
      MergedBDistinct(a, b);
      var front, back := MergedA(a, b), MergedB(a, b);
      forall i, j | 0 <= i < |front| && 0 <= j < |back| ensures front[i].key != back[j].key {
        LookupAt(a, i);
        assert back[j] in back;
      }
      DistinctConcat(front, back);
    }
  }

  lemma DistinctConcat(a: seq<Field>, b: seq<Field>)
    requires DistinctKeys(a) && DistinctKeys(b)
    requires forall i, j | 0 <= i < |a| && 0 <= j < |b| :: a[i].key != b[j].key
    ensures DistinctKeys(a + b)
  {
  }

  lemma {:induction false} FirstMatchConcat(parse: Parser, el: Value, a: FieldSet, b: FieldSet)
    ensures FirstMatch(parse, el, a + b)
         == if FirstMatch(parse, el, a).Some? then FirstMatch(parse, el, a) else FirstMatch(parse, el, b)
    decreases |a|
  {
    if a == [] {
      assert a + b == b;
    } else {
      assert (a + b)[1..] == a[1..] + b;
      FirstMatchConcat(parse, el, a[1..], b);
    }
  }

  lemma FirstMatchPlus(parse: Parser, el: Value, fs: FieldSet, x: Field)
    ensures FirstMatch(parse, el, fs + [x])
         == if FirstMatch(parse, el, fs).Some? then FirstMatch(parse, el, fs)
            else if EntryMatches(parse, el, x.key) then Some(x) else None
  {
    FirstMatchConcat(parse, el, fs, [x]);
    assert [x][1..] == [];
  }

  lemma {:induction false} FirstMatchSplit(parse: Parser, el: Value, fs: FieldSet)
    requires fs != []
    ensures var front, last := FirstMatch(parse, el, fs[..|fs| - 1]), fs[|fs| - 1];
            FirstMatch(parse, el, fs) ==
              if front.Some? then front else if EntryMatches(parse, el, last.key) then Some(last) else None
  {
    assert fs == fs[..|fs| - 1] + [fs[|fs| - 1]];
    FirstMatchPlus(parse, el, fs[..|fs| - 1], fs[|fs| - 1]);
  }

  lemma {:induction false} FirstInA(parse: Parser, el: Value, a: FieldSet, b: FieldSet)
    ensures FirstMatch(parse, el, MergedA(a, b))
         == match FirstMatch(parse, el, a)
            case None => None
            case Some(x) => Some(Field(x.key, MergedEntry(x.value, Lookup(b, x.key))))
    decreases |a|
  {
    if a != [] {
      var front, last := a[..|a| - 1], a[|a| - 1];
      FirstInA(parse, el, front, b);
      FirstMatchSplit(parse, el, a);
      FirstMatchPlus(parse, el, MergedA(front, b), Field(last.key, MergedEntry(last.value, Lookup(b, last.key))));
    }
  }

  lemma {:induction false} FirstInB(parse: Parser, el: Value, a: FieldSet, b: FieldSet)
    requires FirstMatch(parse, el, a).None?
    ensures FirstMatch(parse, el, MergedB(a, b))
         == match FirstMatch(parse, el, b)
            case None => None
            case Some(y) => Some(Field(y.key, OnlyEntry(Some(y.value))))
    decreases |b|
  {
    if b != [] {
      var front, last := b[..|b| - 1], b[|b| - 1];
      FirstInB(parse, el, a, front);
      FirstMatchSplit(parse, el, b);
      FirstMatchPlus(parse, el, MergedB(a, front), Field(last.key, OnlyEntry(Some(last.value))));
      if Lookup(a, last.key).Some? {
        Unmatched(parse, el, a, last.key);
      }
    }
  }

  /** A key that is in a set without a match does not match. */
  lemma {:induction false} Unmatched(parse: Parser, el: Value, fs: FieldSet, key: string)
    requires FirstMatch(parse, el, fs).None? && Lookup(fs, key).Some?
    ensures !EntryMatches(parse, el, key)
    decreases |fs|
  {
    Present(fs, key);
    var i :| 0 <= i < |fs| && fs[i].key == key;
    if i > 0 {
      assert fs == [fs[0]] + fs[1..];
      LookupConcat([fs[0]], fs[1..], key);
      Present(fs[1..], key);
      assert fs[1..][i - 1].key == key;
      Unmatched(parse, el, fs[1..], key);
    }
  }

  /**
   Of the merged set, the first entry of a decides, joined with what b has under the same key; else the first of b.
   */
  lemma FirstOfMerged(parse: Parser, el: Value, a: FieldSet, b: FieldSet)
    requires !OwnsWhole(a) && !OwnsWhole(b)
    ensures FirstMatch(parse, el, Merged(a, b))
         == match FirstMatch(parse, el, a)
            case Some(x) => Some(Field(x.key, MergedEntry(x.value, Lookup(b, x.key))))
            case None =>
              match FirstMatch(parse, el, b)
              case Some(y) => Some(Field(y.key, OnlyEntry(Some(y.value))))
              case None => None
  {
    FirstMatchConcat(parse, el, MergedA(a, b), MergedB(a, b));
    FirstInA(parse, el, a, b);
    if FirstMatch(parse, el, a).None? {
      FirstInB(parse, el, a, b);
    }
  }

  lemma {:induction false} KeptLeads(parse: Parser, v: Value, fs: FieldSet, p: Path)
    requires Keeps(parse, v, fs, p)
    ensures Leads(v, p)
    decreases |p|
  {
    if p != [] && !OwnsWhole(fs) {
      match (v, p[0])
      case (Arr(items), Index(i)) => KeptLeads(parse, items[i], MatchElement(parse, items[i], fs).value, p[1..]);
      case (Rec(fields), Key(k)) => KeptLeads(parse, Lookup(fields, k).value, OwnedField(fs, k).value, p[1..]);
    }
  }

  lemma ItemPartKeeps(parse: Parser, items: seq<Value>, fs: Option<FieldSet>, i: nat, q: Path)
    requires i < |items|
    ensures OwnsBelow(parse, Arr(items), fs, [Index(i)] + q)
         == OwnsBelow(parse, items[i], ItemPart(parse, items[i], fs), q)
  {
    Below(Index(i), q);
    if fs.Some? {
      if OwnsWhole(fs.value) {
        assert Leads(Arr(items), [Index(i)] + q) == Leads(items[i], q);
      } else {
        KeepsIndex(parse, items, fs.value, i, q);
      }
    }
  }

  lemma FieldPartKeeps(parse: Parser, fields: seq<Field>, fs: Option<FieldSet>, i: nat, q: Path)
    requires DistinctKeys(fields) && i < |fields|
    ensures OwnsBelow(parse, Rec(fields), fs, [Key(fields[i].key)] + q)
         == OwnsBelow(parse, fields[i].value, FieldPart(fs, fields[i].key), q)
  {
    Below(Key(fields[i].key), q);
    LookupAt(fields, i);
    if fs.Some? {
      if OwnsWhole(fs.value) {
        assert Leads(Rec(fields), [Key(fields[i].key)] + q) == Leads(fields[i].value, q);
      } else {
        KeepsKey(parse, fields, fs.value, i, q);
      }
    }
  }

  /** A set is within two others exactly if they keep every path that it keeps: if it is, they do ... */
  lemma {:induction false} WithinKeeps(parse: Parser, v: Value, fs: Option<FieldSet>, x: Option<FieldSet>,
      y: Option<FieldSet>, p: Path)
    requires WellFormed(v) && Within(parse, v, fs, x, y) && OwnsBelow(parse, v, fs, p)
    ensures OwnsBelow(parse, v, x, p) || OwnsBelow(parse, v, y, p)
    decreases |p|
  {
    KeptLeads(parse, v, fs.value, p);
    if p != [] && !(x.Some? && OwnsWhole(x.value)) && !(y.Some? && OwnsWhole(y.value)) {
      var q := p[1..];
      assert p == [p[0]] + q;
      match (v, p[0])
      case (Arr(items), Index(i)) =>
        ItemPartKeeps(parse, items, fs, i, q);
        ItemPartKeeps(parse, items, x, i, q);
        ItemPartKeeps(parse, items, y, i, q);
        WithinKeeps(parse, items[i], ItemPart(parse, items[i], fs), ItemPart(parse, items[i], x),
                    ItemPart(parse, items[i], y), q);
      case (Rec(fields), Key(k)) =>
        var i :| 0 <= i < |fields| && fields[i] == Field(k, Lookup(fields, k).value);
        FieldPartKeeps(parse, fields, fs, i, q);
        FieldPartKeeps(parse, fields, x, i, q);
        FieldPartKeeps(parse, fields, y, i, q);
        WithinKeeps(parse, fields[i].value, FieldPart(fs, k), FieldPart(x, k), FieldPart(y, k), q);
    }
  }

  /** ... and if it is not, there is a path they do not. */
  lemma {:induction false} NotWithin(parse: Parser, v: Value, fs: Option<FieldSet>, x: Option<FieldSet>,
      y: Option<FieldSet>) returns (p: Path)
    requires WellFormed(v) && !Within(parse, v, fs, x, y)
    ensures OwnsBelow(parse, v, fs, p) && !OwnsBelow(parse, v, x, p) && !OwnsBelow(parse, v, y, p)
    decreases v
  {
    if x.None? && y.None? {
      return [];
    }
    match v
    case Arr(items) =>
      var i :| 0 <= i < |items| && !Within(parse, items[i], ItemPart(parse, items[i], fs),
                                           ItemPart(parse, items[i], x), ItemPart(parse, items[i], y));
      var q := NotWithin(parse, items[i], ItemPart(parse, items[i], fs), ItemPart(parse, items[i], x),
                         ItemPart(parse, items[i], y));
      ItemPartKeeps(parse, items, fs, i, q);
      ItemPartKeeps(parse, items, x, i, q);
      ItemPartKeeps(parse, items, y, i, q);
      return [Index(i)] + q;
    case Rec(fields) =>
      var i :| 0 <= i < |fields| && !Within(parse, fields[i].value, FieldPart(fs, fields[i].key),
                                            FieldPart(x, fields[i].key), FieldPart(y, fields[i].key));
      var k := fields[i].key;
      var q := NotWithin(parse, fields[i].value, FieldPart(fs, k), FieldPart(x, k), FieldPart(y, k));
      FieldPartKeeps(parse, fields, fs, i, q);
      FieldPartKeeps(parse, fields, x, i, q);
      FieldPartKeeps(parse, fields, y, i, q);
      return [Key(k)] + q;
  }

  lemma WithinExactly(parse: Parser, v: Value, fs: Option<FieldSet>, x: Option<FieldSet>, y: Option<FieldSet>)
    requires WellFormed(v)
    ensures Within(parse, v, fs, x, y) <==>
              forall p | OwnsBelow(parse, v, fs, p) :: OwnsBelow(parse, v, x, p) || OwnsBelow(parse, v, y, p)
  {
    if Within(parse, v, fs, x, y) {
      forall p | OwnsBelow(parse, v, fs, p) ensures OwnsBelow(parse, v, x, p) || OwnsBelow(parse, v, y, p) {
        WithinKeeps(parse, v, fs, x, y, p);
      }
    } else {
      var p := NotWithin(parse, v, fs, x, y);
    }
  }

  /** So covering is keeping every path the other keeps. */
  lemma CoversKeeps(parse: Parser, v: Value, owner: FieldSet, fs: FieldSet, p: Path)
    requires WellFormed(v) && Covers(parse, v, owner, fs) && Keeps(parse, v, fs, p)
    ensures Keeps(parse, v, owner, p)
  {
    WithinKeeps(parse, v, Some(fs), Some(owner), None, p);
  }

  /** The law at one path. */
  predicate LawAt(parse: Parser, v: Value, a: FieldSet, b: FieldSet, p: Path) {
    Keeps(parse, v, Merged(a, b), p) <==> Keeps(parse, v, a, p) || Keeps(parse, v, b, p)
  }

  lemma LawIfWhole(parse: Parser, v: Value, a: FieldSet, b: FieldSet, p: Path)
    requires OwnsWhole(a) || OwnsWhole(b)
    ensures LawAt(parse, v, a, b, p)
  {
    if Keeps(parse, v, a, p) {
      KeptLeads(parse, v, a, p);
    }
    if Keeps(parse, v, b, p) {
      KeptLeads(parse, v, b, p);
    }
  }

  /** What the merged set keeps of an element, or of a field, in terms of what its parts have of it. */
  lemma LawAtItem(parse: Parser, items: seq<Value>, a: FieldSet, b: FieldSet, i: nat, q: Path)
    requires i < |items| && !OwnsWhole(a) && !OwnsWhole(b)
    ensures var el := items[i];
            var x, y := FirstMatch(parse, el, a), FirstMatch(parse, el, b);
            LawAt(parse, Arr(items), a, b, [Index(i)] + q) <==>
              (el.Rec? && x.Some? && y.Some? ==>
                 PartLaw(parse, el, x.value.value, Lookup(b, x.value.key), y.value.value, q))
  {
    MergedOwnsPart(a, b);
    FirstOfMerged(parse, items[i], a, b);
    var x := FirstMatch(parse, items[i], a);
    if x.Some? && FirstMatch(parse, items[i], b).None? && Lookup(b, x.value.key).Some? {
      Unmatched(parse, items[i], b, x.value.key);
    }
    KeepsIndex(parse, items, a, i, q);
    KeepsIndex(parse, items, b, i, q);
    KeepsIndex(parse, items, Merged(a, b), i, q);
  }

  /** The entry x joined with z keeps what x or y keeps. */
  ghost predicate PartLaw(parse: Parser, el: Value, x: Value, z: Option<Value>, y: Value, q: Path) {
    Keeps(parse, el, AsSet(MergedEntry(x, z)), q) <==>
      Keeps(parse, el, AsSet(x), q) || Keeps(parse, el, AsSet(y), q)
  }

  lemma FoundUnderItsKey(parse: Parser, el: Value, fs: FieldSet)
    requires DistinctKeys(fs) && FirstMatch(parse, el, fs).Some?
    ensures var y := FirstMatch(parse, el, fs).value; Lookup(fs, y.key) == Some(y.value)
  {
    var j :| 0 <= j < |fs| && fs[j] == FirstMatch(parse, el, fs).value;
    LookupAt(fs, j);
  }

  lemma LawAtField(parse: Parser, fields: seq<Field>, a: FieldSet, b: FieldSet, i: nat, q: Path)
    requires DistinctKeys(fields) && i < |fields| && !OwnsWhole(a) && !OwnsWhole(b)
    ensures var x, y := Lookup(a, "f:" + fields[i].key), Lookup(b, "f:" + fields[i].key);
            LawAt(parse, Rec(fields), a, b, [Key(fields[i].key)] + q) <==>
              if IsRecord(x) && IsRecord(y) then LawAt(parse, fields[i].value, x.value.fields, y.value.fields, q)
              else IsRecord(x) || IsRecord(y) || (x.None? && y.None?) || !Keeps(parse, fields[i].value, [], q)
  {
    MergedOwnsPart(a, b);
    LookupMerged(a, b, "f:" + fields[i].key);
    KeepsKey(parse, fields, a, i, q);
    KeepsKey(parse, fields, b, i, q);
    KeepsKey(parse, fields, Merged(a, b), i, q);
  }

  /** A merged set keeps a path exactly when one of the two sets does. */
  lemma {:induction false} MergeKeeps(parse: Parser, v: Value, a: FieldSet, b: FieldSet, p: Path)
    requires WellFormed(v) && WellFormed(Rec(a)) && WellFormed(Rec(b))
    requires MergesRight(parse, v, a, b)
    ensures LawAt(parse, v, a, b, p)
    decreases |p|, 0
  {
    if p == [] {
    } else if OwnsWhole(a) || OwnsWhole(b) {
      LawIfWhole(parse, v, a, b, p);
    } else {
      var q := p[1..];
      assert p == [p[0]] + q;
      match (v, p[0])
      case (Arr(items), Index(i)) =>
        if i < |items| {
          LawAtItem(parse, items, a, b, i, q);
          if items[i].Rec? && FirstMatch(parse, items[i], a).Some? && FirstMatch(parse, items[i], b).Some? {
            MergeKeepsItem(parse, items[i], a, b, q);
          }
        }
      case (Rec(fields), Key(k)) =>
        if Lookup(fields, k).Some? {
          var i :| 0 <= i < |fields| && fields[i] == Field(k, Lookup(fields, k).value);
          LawAtField(parse, fields, a, b, i, q);
          var x, y := Lookup(a, "f:" + k), Lookup(b, "f:" + k);
          assert FieldRight(parse, fields[i].value, x, y);
          if IsRecord(x) && IsRecord(y) {
            EntriesAreWellFormed(a, Field("f:" + k, x.value));
            EntriesAreWellFormed(b, Field("f:" + k, y.value));
            MergeKeeps(parse, fields[i].value, x.value.fields, y.value.fields, q);
          }
        }
      case _ =>
    }
  }

  lemma MergeKeepsItem(parse: Parser, el: Value, a: FieldSet, b: FieldSet, q: Path)
    requires WellFormed(el) && WellFormed(Rec(a)) && WellFormed(Rec(b)) && el.Rec?
    requires FirstMatch(parse, el, a).Some? && FirstMatch(parse, el, b).Some?
    requires var x, y := FirstMatch(parse, el, a).value, FirstMatch(parse, el, b).value;
             if x.key == y.key then SameKeyRight(parse, el, x.value, y.value)
             else OtherKeyRight(parse, el, x.value, Lookup(b, x.key), y.value)
    ensures var x, y := FirstMatch(parse, el, a).value, FirstMatch(parse, el, b).value;
            PartLaw(parse, el, x.value, Lookup(b, x.key), y.value, q)
    decreases |q|, 2
  {
    var x, y := FirstMatch(parse, el, a).value, FirstMatch(parse, el, b).value;
    EntriesAreWellFormed(a, x);
    EntriesAreWellFormed(b, y);
    FoundUnderItsKey(parse, el, b);
    if x.key != y.key {
      OtherKeyKeeps(parse, el, x.value, Lookup(b, x.key), y.value, q);
    } else if x.value.Rec? && y.value.Rec? {
      MergeKeepsPart(parse, el, x.value, y.value, q);
    } else {
      OneOwnsAll(parse, el, x.value, y.value, q);
    }
  }

  lemma OtherKeyKeeps(parse: Parser, el: Value, x: Value, z: Option<Value>, y: Value, q: Path)
    requires WellFormed(el) && OtherKeyRight(parse, el, x, z, y)
    ensures PartLaw(parse, el, x, z, y, q)
  {
    var joined := AsSet(MergedEntry(x, z));
    if z.Some? {
      TogetherKeeps(parse, el, joined, AsSet(x), AsSet(y), q);
    } else {
      assert joined == AsSet(x);
      if Keeps(parse, el, AsSet(y), q) {
        CoversKeeps(parse, el, AsSet(x), AsSet(y), q);
      }
    }
  }

  lemma TogetherKeeps(parse: Parser, el: Value, joined: FieldSet, x: FieldSet, y: FieldSet, q: Path)
    requires WellFormed(el) && Within(parse, el, Some(joined), Some(x), Some(y))
    requires Covers(parse, el, joined, x) && Covers(parse, el, joined, y)
    ensures Keeps(parse, el, joined, q) <==> Keeps(parse, el, x, q) || Keeps(parse, el, y, q)
  {
    if Keeps(parse, el, joined, q) {
      WithinKeeps(parse, el, Some(joined), Some(x), Some(y), q);
    }
    if Keeps(parse, el, x, q) {
      CoversKeeps(parse, el, joined, x, q);
    }
    if Keeps(parse, el, y, q) {
      CoversKeeps(parse, el, joined, y, q);
    }
  }

  lemma MergeKeepsPart(parse: Parser, el: Value, x: Value, y: Value, q: Path)
    requires WellFormed(el) && x.Rec? && y.Rec? && WellFormed(x) && WellFormed(y)
    requires MergesRight(parse, el, x.fields, y.fields)
    ensures PartLaw(parse, el, x, Some(y), y, q)
    decreases |q|, 1
  {
    MergeKeeps(parse, el, x.fields, y.fields, q);
  }

  lemma EntriesAreWellFormed(fs: FieldSet, f: Field)
    requires WellFormed(Rec(fs)) && f in fs
    ensures WellFormed(f.value)
  {
    var i :| 0 <= i < |fs| && fs[i] == f;
  }

  /** An entry that is no record owns all of its element; the merge keeps the one that is, which must do so too. */
  lemma OneOwnsAll(parse: Parser, el: Value, x: Value, y: Value, q: Path)
    requires WellFormed(el) && (!x.Rec? || !y.Rec?) && SameKeyRight(parse, el, x, y)
    ensures PartLaw(parse, el, x, Some(y), y, q)
  {
    if Leads(el, q) {
      if x.Rec? {
        CoversKeeps(parse, el, x.fields, [], q);
      } else if y.Rec? {
        CoversKeeps(parse, el, y.fields, [], q);
      }
    } else {
      if Keeps(parse, el, AsSet(x), q) {
        KeptLeads(parse, el, AsSet(x), q);
      }
      if Keeps(parse, el, AsSet(y), q) {
        KeptLeads(parse, el, AsSet(y), q);
      }
    }
  }

  /** Where the condition fails, so does the law, at some path. */
  lemma {:induction false} MergeBreaks(parse: Parser, v: Value, a: FieldSet, b: FieldSet) returns (p: Path)
    requires WellFormed(v) && WellFormed(Rec(a)) && WellFormed(Rec(b))
    requires !MergesRight(parse, v, a, b)
    ensures !LawAt(parse, v, a, b, p)
    decreases v, 1
  {
    match v
    case Arr(items) => p := ItemBreaks(parse, items, a, b);
    case Rec(fields) => p := FieldBreaks(parse, fields, a, b);
  }

  lemma ItemBreaks(parse: Parser, items: seq<Value>, a: FieldSet, b: FieldSet) returns (p: Path)
    requires WellFormed(Arr(items)) && WellFormed(Rec(a)) && WellFormed(Rec(b))
    requires !MergesRight(parse, Arr(items), a, b)
    ensures !LawAt(parse, Arr(items), a, b, p)
    decreases Arr(items), 0
  {
    var i :| 0 <= i < |items| &&
        var x, y := FirstMatch(parse, items[i], a), FirstMatch(parse, items[i], b);
        && items[i].Rec? && x.Some? && y.Some?
        && if x.value.key == y.value.key then !SameKeyRight(parse, items[i], x.value.value, y.value.value)
           else !OtherKeyRight(parse, items[i], x.value.value, Lookup(b, x.value.key), y.value.value);
    var el, x, y := items[i], FirstMatch(parse, items[i], a).value, FirstMatch(parse, items[i], b).value;
    EntriesAreWellFormed(a, x);
    EntriesAreWellFormed(b, y);
    FoundUnderItsKey(parse, el, b);
    var q: Path;
    if x.key != y.key {
      q := OtherKeyBreaks(parse, el, x.value, Lookup(b, x.key), y.value);
    } else {
      q := SameKeyBreaks(parse, el, x.value, y.value);
    }
    LawAtItem(parse, items, a, b, i, q);
    p := [Index(i)] + q;
  }

  lemma SameKeyBreaks(parse: Parser, el: Value, x: Value, y: Value) returns (q: Path)
    requires WellFormed(el) && WellFormed(x) && WellFormed(y) && !SameKeyRight(parse, el, x, y)
    ensures !PartLaw(parse, el, x, Some(y), y, q)
    decreases el, 2
  {
    if x.Rec? && y.Rec? {
      q := MergeBreaks(parse, el, x.fields, y.fields);
    } else {
      q := NotWithin(parse, el, Some([]), Some(if x.Rec? then x.fields else y.fields), None);
    }
  }

  lemma OtherKeyBreaks(parse: Parser, el: Value, x: Value, z: Option<Value>, y: Value) returns (q: Path)
    requires WellFormed(el) && !OtherKeyRight(parse, el, x, z, y)
    ensures !PartLaw(parse, el, x, z, y, q)
  {
    var joined := AsSet(MergedEntry(x, z));
    if !Covers(parse, el, joined, AsSet(y)) {
      q := NotWithin(parse, el, Some(AsSet(y)), Some(joined), None);
    } else if !Covers(parse, el, joined, AsSet(x)) {
      q := NotWithin(parse, el, Some(AsSet(x)), Some(joined), None);
    } else {
      q := NotWithin(parse, el, Some(joined), Some(AsSet(x)), Some(AsSet(y)));
    }
  }

  lemma FieldBreaks(parse: Parser, fields: seq<Field>, a: FieldSet, b: FieldSet) returns (p: Path)
    requires WellFormed(Rec(fields)) && WellFormed(Rec(a)) && WellFormed(Rec(b))
    requires !MergesRight(parse, Rec(fields), a, b)
    ensures !LawAt(parse, Rec(fields), a, b, p)
    decreases Rec(fields), 0
  {
    var i :| 0 <= i < |fields| &&
      !FieldRight(parse, fields[i].value, Lookup(a, "f:" + fields[i].key), Lookup(b, "f:" + fields[i].key));
    var x, y := Lookup(a, "f:" + fields[i].key), Lookup(b, "f:" + fields[i].key);
    var q: Path := [];
    if IsRecord(x) && IsRecord(y) {
      EntriesAreWellFormed(a, Field("f:" + fields[i].key, x.value));
      EntriesAreWellFormed(b, Field("f:" + fields[i].key, y.value));
      q := MergeBreaks(parse, fields[i].value, x.value.fields, y.value.fields);
    }
    LawAtField(parse, fields, a, b, i, q);
    p := [Key(fields[i].key)] + q;
  }

  /**
   The merged set keeps what either keeps, and nothing else, if and only if the two merge right: for every value, with
   lists or without, and any two sets.
   */
  lemma MergeLawExactly(parse: Parser, v: Value, a: FieldSet, b: FieldSet)
    requires WellFormed(v) && WellFormed(Rec(a)) && WellFormed(Rec(b))
    ensures (forall p :: LawAt(parse, v, a, b, p)) <==> MergesRight(parse, v, a, b)
  {
    if MergesRight(parse, v, a, b) {
      forall p ensures LawAt(parse, v, a, b, p) {
        MergeKeeps(parse, v, a, b, p);
      }
    } else {
      var p := MergeBreaks(parse, v, a, b);
    }
  }

  /** So filtering by the merged set leaves exactly what one set or the other would have left. */
  lemma MergeLaw(parse: Parser, v: Value, a: FieldSet, b: FieldSet, either: Path -> bool)
    requires WellFormed(v) && WellFormed(Rec(a)) && WellFormed(Rec(b))
    requires MergesRight(parse, v, a, b)
    requires forall p :: either(p) == (Keeps(parse, v, a, p) || Keeps(parse, v, b, p))
    ensures Filtered(parse, v, Merged(a, b)) == Restricted(v, either)
  {
    forall p ensures either(p) == Keeps(parse, v, Merged(a, b), p) {
      MergeKeeps(parse, v, a, b, p);
    }
    FilteringRestricts(parse, v, Merged(a, b), either);
  }

  /** A field named by nodes that are no records only: neither set keeps it, and the merged set does. */
  lemma FieldOwnsTooMuch(parse: Parser, fields: seq<Field>, a: FieldSet, b: FieldSet, i: nat)
    requires DistinctKeys(fields) && i < |fields| && !OwnsWhole(a) && !OwnsWhole(b)
    requires var x, y := Lookup(a, "f:" + fields[i].key), Lookup(b, "f:" + fields[i].key);
             !IsRecord(x) && !IsRecord(y) && (x.Some? || y.Some?)
    ensures var p := [Key(fields[i].key)];
            && !Keeps(parse, Rec(fields), a, p) && !Keeps(parse, Rec(fields), b, p)
            && Keeps(parse, Rec(fields), Merged(a, b), p)
  {
    MergedOwnsPart(a, b);
    LookupMerged(a, b, "f:" + fields[i].key);
    assert [Key(fields[i].key)] + [] == [Key(fields[i].key)];
    KeepsKey(parse, fields, a, i, []);
    KeepsKey(parse, fields, b, i, []);
    KeepsKey(parse, fields, Merged(a, b), i, []);
  }

  const X: Field := Field("f:" + "x", Bool(true))
  const Y: Field := Field("f:" + "y", Rec([]))
  const Z: Field := Field("f:" + "z", Rec([]))

  /** There is such a case: one set names x by a boolean and owns y, the other owns z. */
  lemma NonRecordOwnsTooMuch(parse: Parser)
    ensures var v, a, b := Rec([Field("x", Bool(true))]), [X, Y], [Z];
            && !Keeps(parse, v, a, [Key("x")]) && !Keeps(parse, v, b, [Key("x")])
            && Keeps(parse, v, Merged(a, b), [Key("x")])
  {
    NamedOnce("x", "y");
    NamedOnce("x", "z");
    LookupPlus([X], Y, X.key);
    LookupPlus([], X, X.key);
    LookupPlus([], Z, X.key);
    assert [] + [X] == [X] && [] + [Z] == [Z] && [X] + [Y] == [X, Y];
    assert X.key[0] == 'f' && Z.key[0] == 'f' && [X, Y][0] == X && [Z][0] == Z;
    FieldOwnsTooMuch(parse, [Field("x", Bool(true))], [X, Y], [Z], 0);
  }

  lemma NamedOnce(a: string, b: string)
    requires a != b
    ensures "f:" + a != "f:" + b
  {
    assert ("f:" + a)[2..] == a && ("f:" + b)[2..] == b;
  }

  lemma MergedSingles(x: Field, y: Field)
    requires x.key != y.key && x.key != "." && y.key != "." && x.value.Rec? && y.value.Rec?
    ensures Merged([x], [y]) == [x, y]
  {
    assert [x][..0] == [] && [y][..0] == [];
    assert Lookup([y], x.key) == None && Lookup([x], y.key) == None;
    assert [x][0].key != "." && [y][0].key != ".";
    assert MergedA([x], [y]) == [x] && MergedB([x], [y]) == [y];
  }

  lemma FirstMatches(parse: Parser, el: seq<Field>, name: string, child: FieldSet, more: FieldSet)
    requires KeyMatches(parse, el, name)
    ensures MatchElement(parse, Rec(el), [Field("k:" + name, Rec(child))] + more) == Some(child)
  {
    assert ("k:" + name)[2..] == name;
  }

  lemma OwnsOnly(key: string, other: string)
    requires key != other
    ensures OwnedField([Field("f:" + key, Rec([]))], key) == Some([])
    ensures OwnedField([Field("f:" + key, Rec([]))], other) == None
    ensures !OwnsWhole([Field("f:" + key, Rec([]))])
  {
    var fs := [Field("f:" + key, Rec([]))];
    assert fs[..0] == [];
    assert ("f:" + key)[2..] == key && ("f:" + other)[2..] == other;
    assert fs[0].key[0] == 'f';
  }

  /**
   Where the two sets know a list element by different keys first, the law can fail: the first entry of the merged set
   decides alone, and what the other manager owns of the element is hidden. Here one manager knows the element as `one`
   and owns its name, another knows it as `two` and owns its port; of the two together, the port is not kept.
   */
  lemma AmbiguityLosesFields(parse: Parser, el: seq<Field>, one: string, two: string)
    requires one != two && KeyMatches(parse, el, one) && KeyMatches(parse, el, two)
    requires Lookup(el, "port").Some?
    ensures var a := [Field("k:" + one, Rec([Field("f:" + "name", Rec([]))]))];
            var b := [Field("k:" + two, Rec([Field("f:" + "port", Rec([]))]))];
            && Keeps(parse, Arr([Rec(el)]), b, [Index(0), Key("port")])
            && !Keeps(parse, Arr([Rec(el)]), Merged(a, b), [Index(0), Key("port")])
  {
    var names, ports := [Field("f:" + "name", Rec([]))], [Field("f:" + "port", Rec([]))];
    var x, y := Field("k:" + one, Rec(names)), Field("k:" + two, Rec(ports));
    assert x.key[2..] == one && y.key[2..] == two && x.key[0] == 'k' && y.key[0] == 'k';
    MergedSingles(x, y);
    assert [x] + [y] == [x, y] && [y] + [] == [y];
    FirstMatches(parse, el, one, names, [y]);
    FirstMatches(parse, el, two, ports, []);
    OwnsOnly("name", "port");
    OwnsOnly("port", "name");
    assert [x, y][0].key != "." && [y][0].key != ".";
    KeepsPort(parse, el, [x, y], names);
    KeepsPort(parse, el, [y], ports);
  }

  lemma KeepsPort(parse: Parser, el: seq<Field>, fs: FieldSet, child: FieldSet)
    requires Lookup(el, "port").Some? && !OwnsWhole(fs) && !OwnsWhole(child)
    requires MatchElement(parse, Rec(el), fs) == Some(child)
    ensures Keeps(parse, Arr([Rec(el)]), fs, [Index(0), Key("port")]) <==> OwnedField(child, "port").Some?
  {
    var p: Path := [Index(0), Key("port")];
    assert p[1..] == [Key("port")] && p[1..][1..] == [];
  }

  // ---------------------------------------------------------------- extractOwnedSpec and compactSpec

  /** The spec a managedFields entry owns, if it is a server-side apply of the object itself. */
  function OwnedSpec(raw: Value): Option<FieldSet> {
    if !raw.Rec? || Lookup(raw.fields, "operation") != Some(Str("Apply")) then None
    else if Lookup(raw.fields, "subresource") != None && Lookup(raw.fields, "subresource") != Some(Str("")) then None
    else
      match Lookup(raw.fields, "fieldsV1")
      case Some(Rec(fields)) =>
        (match Lookup(fields, "f:spec")
         case Some(Rec(specFs)) => Some(specFs)
         case _ => None)
      case _ => None
  }

  function Extracted(entries: seq<Value>): Option<FieldSet>
    decreases |entries|
  {
    if entries == [] then None
    else
      var merged, specFs := Extracted(entries[..|entries| - 1]), OwnedSpec(entries[|entries| - 1]);
      if merged.Some? && specFs.Some? then Some(Merged(merged.value, specFs.value))
      else if specFs.Some? then specFs else merged
  }

  method ExtractOwnedSpec(managedFields: Value) returns (merged: Option<FieldSet>)
    ensures merged == if managedFields.Arr? then Extracted(managedFields.items) else None
  {
    merged := None;
    if !managedFields.Arr? {
      return;
    }
    var entries := managedFields.items;
    for i := 0 to |entries|
      invariant merged == Extracted(entries[..i])
    {
      assert entries[..i + 1][..i] == entries[..i];
      var specFs := OwnedSpec(entries[i]);
      if specFs.None? {
        continue;
      }
      if merged.None? {
        merged := specFs;
      } else {
        var both := MergeFieldSets(merged.value, specFs.value);
        merged := Some(both);
      }
    }
    assert entries[..|entries|] == entries;
  }

  lemma {:induction false} MergedIsWellFormed(a: FieldSet, b: FieldSet)
    requires WellFormed(Rec(a)) && WellFormed(Rec(b))
    ensures WellFormed(Rec(Merged(a, b)))
    decreases a, 1
  {
    if !OwnsWhole(a) && !OwnsWhole(b) {
      MergedDistinct(a, b);
      MergedAWellFormed(a, b);
      MergedBWellFormed(a, b);
      forall i | 0 <= i < |Merged(a, b)| ensures WellFormed(Merged(a, b)[i].value) {
        var f := Merged(a, b)[i];
        assert f in MergedA(a, b) || f in MergedB(a, b);
      }
    }
  }

  lemma {:induction false} MergedAWellFormed(a: FieldSet, b: FieldSet)
    requires WellFormed(Rec(a)) && WellFormed(Rec(b))
    ensures forall f | f in MergedA(a, b) :: WellFormed(f.value)
    decreases a, 0
  {
    if a != [] {
      var front, last := a[..|a| - 1], a[|a| - 1];
      assert WellFormed(Rec(front));
      MergedAWellFormed(front, b);
      assert WellFormed(last.value);
      var y := Lookup(b, last.key);
      if y.Some? {
        EntriesAreWellFormed(b, Field(last.key, y.value));
        if last.value.Rec? && y.value.Rec? {
          MergedIsWellFormed(last.value.fields, y.value.fields);
        }
      }
    }
  }

  lemma {:induction false} MergedBWellFormed(a: FieldSet, b: FieldSet)
    requires WellFormed(Rec(b))
    ensures forall f | f in MergedB(a, b) :: WellFormed(f.value)
    decreases |b|
  {
    if b != [] {
      assert WellFormed(Rec(b[..|b| - 1])) && WellFormed(b[|b| - 1].value);
      MergedBWellFormed(a, b[..|b| - 1]);
    }
  }

  /** A server-side apply of the object itself, and what it owns of the spec. */
  ghost predicate Applied(raw: Value, own: FieldSet) {
    && raw.Rec? && Lookup(raw.fields, "operation") == Some(Str("Apply"))
    && (Lookup(raw.fields, "subresource") == None || Lookup(raw.fields, "subresource") == Some(Str("")))
    && var fieldsV1 := Lookup(raw.fields, "fieldsV1");
       fieldsV1.Some? && fieldsV1.value.Rec? && Lookup(fieldsV1.value.fields, "f:spec") == Some(Rec(own))
  }

  lemma OwnedSpecExactly(raw: Value, own: FieldSet)
    ensures OwnedSpec(raw) == Some(own) <==> Applied(raw, own)
  {
  }

  /** Some apply owns what is at the path. */
  ghost predicate SomeApplyKeeps(parse: Parser, v: Value, entries: seq<Value>, p: Path) {
    exists i, own :: 0 <= i < |entries| && Applied(entries[i], own) && Keeps(parse, v, own, p)
  }

  lemma OneMoreKeeps(parse: Parser, v: Value, entries: seq<Value>, p: Path)
    requires entries != []
    ensures var front, own := entries[..|entries| - 1], OwnedSpec(entries[|entries| - 1]);
            SomeApplyKeeps(parse, v, entries, p) <==>
              SomeApplyKeeps(parse, v, front, p) || (own.Some? && Keeps(parse, v, own.value, p))
  {
    var front, last := entries[..|entries| - 1], entries[|entries| - 1];
    if OwnedSpec(last).Some? {
      OwnedSpecExactly(last, OwnedSpec(last).value);
    }
    if SomeApplyKeeps(parse, v, front, p) {
      MoreKeepToo(parse, v, front, entries, p);
    }
    if SomeApplyKeeps(parse, v, entries, p) {
      LastOrBefore(parse, v, entries, p);
    }
  }

  lemma MoreKeepToo(parse: Parser, v: Value, front: seq<Value>, entries: seq<Value>, p: Path)
    requires front <= entries && SomeApplyKeeps(parse, v, front, p)
    ensures SomeApplyKeeps(parse, v, entries, p)
  {
    var i, own :| 0 <= i < |front| && Applied(front[i], own) && Keeps(parse, v, own, p);
    assert Applied(entries[i], own);
  }

  lemma LastOrBefore(parse: Parser, v: Value, entries: seq<Value>, p: Path)
    requires SomeApplyKeeps(parse, v, entries, p)
    ensures var front, own := entries[..|entries| - 1], OwnedSpec(entries[|entries| - 1]);
            SomeApplyKeeps(parse, v, front, p) || (own.Some? && Keeps(parse, v, own.value, p))
  {
    var i, own :| 0 <= i < |entries| && Applied(entries[i], own) && Keeps(parse, v, own, p);
    OwnedSpecExactly(entries[i], own);
    if i < |entries| - 1 {
      assert Applied(entries[..|entries| - 1][i], own);
    }
  }

  /** An entry that is no such apply, wherever it stands, leaves the merged set as it is. */
  lemma {:induction false} OthersDoNotCount(a: seq<Value>, raw: Value, b: seq<Value>)
    requires
      || !raw.Rec?
      || Lookup(raw.fields, "operation") != Some(Str("Apply"))
      || (Lookup(raw.fields, "subresource").Some? && Lookup(raw.fields, "subresource") != Some(Str("")))
    ensures Extracted(a + [raw] + b) == Extracted(a + b)
    decreases |b|
  {
    if b == [] {
      ExtractedPlus(a, raw);
      assert a + [raw] + b == a + [raw] && a + b == a;
    } else {
      var front, last := b[..|b| - 1], b[|b| - 1];
      OthersDoNotCount(a, raw, front);
      ExtractedPlus(a + [raw] + front, last);
      ExtractedPlus(a + front, last);
      LastApart(a + [raw], b);
      LastApart(a, b);
    }
  }

  lemma ExtractedPlus(entries: seq<Value>, raw: Value)
    ensures Extracted(entries + [raw])
         == if OwnedSpec(raw).None? then Extracted(entries)
            else if Extracted(entries).None? then OwnedSpec(raw)
            else Some(Merged(Extracted(entries).value, OwnedSpec(raw).value))
  {
    assert (entries + [raw])[..|entries|] == entries;
  }

  lemma LastApart(a: seq<Value>, b: seq<Value>)
    requires b != []
    ensures a + b == (a + b[..|b| - 1]) + [b[|b| - 1]]
  {
  }

  /** Each set can be merged into those before it. */
  ghost predicate Compatible(parse: Parser, v: Value, entries: seq<Value>)
    decreases |entries|
  {
    if entries == [] then true
    else
      var merged, specFs := Extracted(entries[..|entries| - 1]), OwnedSpec(entries[|entries| - 1]);
      && Compatible(parse, v, entries[..|entries| - 1])
      && (specFs.Some? ==> WellFormed(Rec(specFs.value)))
      && (merged.Some? && specFs.Some? ==> MergesRight(parse, v, merged.value, specFs.value))
  }

  /** The set merged from all managers keeps what any of them owns, and nothing else. */
  lemma {:induction false} ExtractedKeeps(parse: Parser, v: Value, entries: seq<Value>, p: Path)
    requires WellFormed(v) && Compatible(parse, v, entries)
    ensures match Extracted(entries)
            case None => !SomeApplyKeeps(parse, v, entries, p)
            case Some(fs) => WellFormed(Rec(fs)) && (Keeps(parse, v, fs, p) <==> SomeApplyKeeps(parse, v, entries, p))
    decreases |entries|
  {
    if entries != [] {
      OneMoreKeeps(parse, v, entries, p);
      var front := entries[..|entries| - 1];
      ExtractedKeeps(parse, v, front, p);
      var merged, specFs := Extracted(front), OwnedSpec(entries[|entries| - 1]);
      if merged.Some? && specFs.Some? {
        MergedIsWellFormed(merged.value, specFs.value);
        MergeKeeps(parse, v, merged.value, specFs.value, p);
      }
    }
  }

  /** So filtering by it leaves exactly what some such apply owns. */
  lemma ExtractedLeaves(parse: Parser, v: Value, entries: seq<Value>, keep: Path -> bool)
    requires WellFormed(v) && Compatible(parse, v, entries) && Extracted(entries).Some?
    requires forall p :: keep(p) <==> SomeApplyKeeps(parse, v, entries, p)
    ensures Filtered(parse, v, Extracted(entries).value) == Restricted(v, keep)
  {
    forall p ensures keep(p) == Keeps(parse, v, Extracted(entries).value, p) {
      ExtractedKeeps(parse, v, entries, p);
    }
    FilteringRestricts(parse, v, Extracted(entries).value, keep);
  }

  datatype Source = LastApplied | ManagedFields | NoSignal
  datatype Compact = Compact(value: Value, filtered: bool, source: Source)

  /** The spec of the manifest in the annotation, if it holds one. */
  function LastAppliedSpec(parse: Parser, annotation: Option<string>): Option<Value> {
    if annotation.None? || annotation.value == "" then None
    else
      match parse(annotation.value)
      case Some(Rec(fields)) =>
        (match Lookup(fields, "spec")
         case Some(Rec(spec)) => Some(Rec(spec))
         case _ => None)
      case _ => None
  }

  /** The annotation holds a manifest with this spec. */
  ghost predicate InManifest(parse: Parser, annotation: Option<string>, template: Value) {
    && annotation.Some? && annotation.value != "" && template.Rec?
    && var manifest := parse(annotation.value);
       manifest.Some? && manifest.value.Rec? && Lookup(manifest.value.fields, "spec") == Some(template)
  }

  lemma LastAppliedExactly(parse: Parser, annotation: Option<string>, template: Value)
    ensures LastAppliedSpec(parse, annotation) == Some(template) <==> InManifest(parse, annotation, template)
  {
  }

  /** What compactSpec may show: the value as narrowed by a signal, pruned, or just pruned. */
  ghost predicate Narrowed(parse: Parser, spec: Value, annotation: Option<string>, managedFields: Value, r: Compact) {
    var template := LastAppliedSpec(parse, annotation);
    var owned := if managedFields.Arr? then Extracted(managedFields.items) else None;
    var byTemplate := if template.Some? then Pruned(Intersected(spec, template.value)) else Null;
    var byOwner := if owned.Some? then Pruned(Filtered(parse, spec, owned.value)) else Null;
    if template.Some? && !IsEmpty(byTemplate) then r == Compact(byTemplate, true, LastApplied)
    else if owned.Some? && !IsEmpty(byOwner) then r == Compact(byOwner, true, ManagedFields)
    else r == Compact(Pruned(spec), false, NoSignal)
  }

  /**
   compactSpec. Whatever the signal, what is shown is part of the spec, with nothing empty left in it; and a narrowed
   spec is never empty.
   */
  method CompactSpec(parse: Parser, spec: Value, annotation: Option<string>, managedFields: Value) returns (r: Compact)
    ensures Narrowed(parse, spec, annotation, managedFields, r)
    ensures Embeds(r.value, spec)
    ensures Pruned(r.value) == r.value
    ensures r.filtered ==> !IsEmpty(r.value)
    ensures r.filtered <==> !r.source.NoSignal?
  {
    var template := LastAppliedSpec(parse, annotation);
    if template.Some? {
      var narrowed := IntersectWithTemplate(spec, template.value);
      var filtered := PruneEmpty(narrowed);
      if !IsEmpty(filtered) {
        IntersectedEmbeds(spec, template.value);
        ShowsPart(narrowed, spec);
        return Compact(filtered, true, LastApplied);
      }
    }
    var owned := ExtractOwnedSpec(managedFields);
    if owned.Some? {
      var narrowed := FilterValue(parse, spec, owned.value);
      var filtered := PruneEmpty(narrowed);
      if !IsEmpty(filtered) {
        FilteredEmbeds(parse, spec, owned.value);
        ShowsPart(narrowed, spec);
        return Compact(filtered, true, ManagedFields);
      }
    }
    EmbedsItself(spec);
    ShowsPart(spec, spec);
    var pruned := PruneEmpty(spec);
    return Compact(pruned, false, NoSignal);
  }

  /**
   What is shown, in terms of the object: narrowed by the manifest in the annotation if there is one and it leaves
   anything; else by what server-side applies own, if there is such an apply and it leaves anything; else not narrowed.
   */
  lemma NarrowedBySignals(parse: Parser, spec: Value, annotation: Option<string>, managedFields: Value, r: Compact)
    requires Narrowed(parse, spec, annotation, managedFields, r)
    ensures forall template | InManifest(parse, annotation, template) ::
              var shown := Pruned(Intersected(spec, template));
              if IsEmpty(shown) then !r.source.LastApplied? else r == Compact(shown, true, LastApplied)
    ensures r.source.LastApplied? ==> exists template :: InManifest(parse, annotation, template)
    ensures r.source.ManagedFields? ==>
              && managedFields.Arr? && Extracted(managedFields.items).Some?
              && r.value == Pruned(Filtered(parse, spec, Extracted(managedFields.items).value)) && !IsEmpty(r.value)
              && exists i, own :: 0 <= i < |managedFields.items| && Applied(managedFields.items[i], own)
    ensures r.source.NoSignal? ==> r.value == Pruned(spec)
    ensures r.source.NoSignal? && managedFields.Arr? && Extracted(managedFields.items).Some? ==>
              IsEmpty(Pruned(Filtered(parse, spec, Extracted(managedFields.items).value)))
  {
    forall template | InManifest(parse, annotation, template)
      ensures LastAppliedSpec(parse, annotation) == Some(template)
    {
      LastAppliedExactly(parse, annotation, template);
    }
    if r.source.LastApplied? {
      LastAppliedExactly(parse, annotation, LastAppliedSpec(parse, annotation).value);
    }
    if r.source.ManagedFields? {
      SomeApply(managedFields.items);
    }
  }

  lemma {:induction false} SomeApply(entries: seq<Value>)
    requires Extracted(entries).Some?
    ensures exists i, own :: 0 <= i < |entries| && Applied(entries[i], own)
    decreases |entries|
  {
    var front, last := entries[..|entries| - 1], entries[|entries| - 1];
    if OwnedSpec(last).Some? {
      OwnedSpecExactly(last, OwnedSpec(last).value);
    } else {
      SomeApply(front);
      var i, own :| 0 <= i < |front| && Applied(front[i], own);
      assert Applied(entries[i], own);
    }
  }

  lemma ShowsPart(narrowed: Value, spec: Value)
    requires Embeds(narrowed, spec)
    ensures Embeds(Pruned(narrowed), spec) && Pruned(Pruned(narrowed)) == Pruned(narrowed)
  {
    PrunedEmbeds(narrowed);
    EmbeddingChains(Pruned(narrowed), narrowed, spec);
    PruningTwice(narrowed);
  }
}
