/** What the rewrite does to a catalog, on the documents themselves and with every member name written out. */
module CatalogOutcome {
  import opened Strings
  import opened Wrappers
  import opened CatalogRewrite
  import opened CatalogMeaning

  /** The name of a listed model. */
  ghost predicate IsNamed(model: Json, name: string) {
    model.Object? && "slug" in model.fields && model.fields["slug"] == Text(name)
  }

  /** What a name stands for: the target of its alias, or itself when it has none. One hop only. */
  ghost predicate StandsFor(aliases: seq<Alias>, name: string, target: string) {
    if exists i | 0 <= i < |aliases| :: aliases[i].requested == name
    then exists i | 0 <= i < |aliases| :: aliases[i].requested == name && aliases[i].upstream == target
    else target == name
  }

  /** A model under another name: the three identity members, as far as there are any, say the new name; the slug is
      always there; all other members are as they were. */
  ghost predicate IsUnder(fields: Fields, name: string, renamed: Fields) {
    && "slug" in renamed && renamed["slug"] == Text(name)
    && ("id" in renamed <==> "id" in fields) && ("id" in renamed ==> renamed["id"] == Text(name))
    && ("display_name" in renamed <==> "display_name" in fields)
    && ("display_name" in renamed ==> renamed["display_name"] == Text(name))
    && forall key | key != "slug" && key != "id" && key != "display_name" ::
         (key in renamed <==> key in fields) && (key in renamed ==> renamed[key] == fields[key])
  }

  /** The new model is the original one of its name's target. */
  ghost predicate Resolves(aliases: seq<Alias>, listed: seq<Json>, model: Json) {
    exists name, target, k | 0 <= k < |listed| ::
      && IsNamed(model, name) && StandsFor(aliases, name, target) && IsNamed(listed[k], target)
      && if target == name then model == listed[k] else IsUnder(listed[k].fields, name, model.fields)
  }

  ghost predicate Lists(models: seq<Json>, name: string) {
    exists i | 0 <= i < |models| :: IsNamed(models[i], name)
  }

  /** Every model resolves, every name that stands for a listed model is there, and none is there twice. */
  ghost predicate OneHopCatalog(aliases: seq<Alias>, listed: seq<Json>, models: seq<Json>) {
    && (forall i | 0 <= i < |models| :: Resolves(aliases, listed, models[i]))
    && (forall name, target | StandsFor(aliases, name, target) && Lists(listed, target) :: Lists(models, name))
    && (forall i, j, name | 0 <= i < j < |models| && IsNamed(models[i], name) :: !IsNamed(models[j], name))
  }

  // ---------- From the definitions to the documents ----------

  lemma RenamedIsUnder(fields: Fields, name: string)
    ensures IsUnder(fields, name, Renamed(fields, name))
  {
  }

  lemma StandsForTarget(aliases: seq<Alias>, name: string, target: string)
    requires UniqueAliases(aliases)
    ensures StandsFor(aliases, name, target) <==> TargetOf(AliasMap(aliases), name) == target
  {
    hide AliasMap;
    var table := AliasMap(aliases);
    forall t ensures Maps(table, name, t) <==> Alias(name, t) in aliases { AliasMapHolds(aliases, name, t); }
    if i :| 0 <= i < |aliases| && aliases[i].requested == name {
      assert Alias(name, aliases[i].upstream) in aliases;
      assert Maps(table, name, aliases[i].upstream);
    }
    assert name in table ==> Maps(table, name, table[name]);
    assert name in table ==> Alias(name, table[name]) in aliases;
  }

  lemma SlugNames(fields: Fields, name: string)
    requires name != ""
    ensures SlugOf(fields) == name <==> IsNamed(Object(fields), name)
  {
  }

  /** The models as they were read. */
  ghost predicate WereRead(entries: seq<Entry>, listed: seq<Json>) {
    |entries| == |listed| && forall i | 0 <= i < |listed| ::
      listed[i] == Object(entries[i].fields) && SlugOf(entries[i].fields) == entries[i].slug && entries[i].slug != ""
  }

  lemma ModelsWereRead(codec: Codec, body: Bytes)
    requires Lawful(codec) && ReadCatalog(codec, body).Some?
    ensures WereRead(ReadCatalog(codec, body).value.1, Member(ReadCatalog(codec, body).value.0, "models").items)
  {
    hide ReadEntries, Lawful, Within, Shallow, TotalBytes, SlugOf;
    ModelsRead(codec, body);
    var raws := RawModels(codec, body);
    EntriesRead(codec, raws);
    EntriesSlugged(codec, raws);
    var entries, listed := ReadCatalog(codec, body).value.1, Member(ReadCatalog(codec, body).value.0, "models").items;
    forall i | 0 <= i < |listed|
      ensures listed[i] == Object(entries[i].fields) && SlugOf(entries[i].fields) == entries[i].slug
    {
      assert ReadFrom(codec, raws[i], entries[i]);
    }
  }

  lemma {:induction false} EntriesSlugged(codec: Codec, raws: seq<Bytes>)
    requires ReadEntries(codec, raws).Some?
    ensures forall i | 0 <= i < |ReadEntries(codec, raws).value| :: ReadEntries(codec, raws).value[i].slug != ""
  {
    if raws != [] { EntriesSlugged(codec, raws[..|raws| - 1]); }
  }

  lemma SourceListed(entries: seq<Entry>, listed: seq<Json>, slug: string)
    requires WereRead(entries, listed)
    ensures slug in SourceOf(entries) <==> Lists(listed, slug)
    ensures slug in SourceOf(entries) ==> slug != "" && exists k | 0 <= k < |listed| ::
      listed[k] == Object(SourceOf(entries)[slug].fields) && IsNamed(listed[k], slug)
  {
    hide SourceOf, SlugOf;
    SourceKeys(entries, slug);
    if slug in SourceOf(entries) {
      var k :| 0 <= k < |entries| && entries[k] == SourceOf(entries)[slug];
      SlugNames(entries[k].fields, slug);
      assert IsNamed(listed[k], slug);
    }
    if k :| 0 <= k < |listed| && IsNamed(listed[k], slug) {
      NamedSlug(entries[k].fields, slug);
      assert entries[k].slug == slug;
    }
  }

  lemma NamedSlug(fields: Fields, name: string)
    requires IsNamed(Object(fields), name)
    ensures SlugOf(fields) == name
  {
  }

  lemma MeaningResolves(aliases: seq<Alias>, entries: seq<Entry>, listed: seq<Json>, name: string)
    requires UniqueAliases(aliases) && WereRead(entries, listed)
    requires TargetOf(AliasMap(aliases), name) in SourceOf(entries)
    ensures Resolves(aliases, listed, Object(Meaning(AliasMap(aliases), SourceOf(entries), name)))
    ensures IsNamed(Object(Meaning(AliasMap(aliases), SourceOf(entries), name)), name)
  {
    hide SourceOf, AliasMap, SlugOf, StandsFor;
    var target := TargetOf(AliasMap(aliases), name);
    StandsForTarget(aliases, name, target);
    SourceListed(entries, listed, target);
    var k :| 0 <= k < |listed| && listed[k] == Object(SourceOf(entries)[target].fields) && IsNamed(listed[k], target);
    RenamedIsUnder(listed[k].fields, name);
  }

  /** What a successful rewrite returns, on the documents: nothing but the models changes, and they are the one-hop
      resolution of the read ones; listed names keep their order, new ones follow in ascending order. */
  lemma RewriteSays(codec: Codec, body: Bytes, aliases: seq<Alias>)
    returns (models: seq<Json>, names: seq<string>, kept: nat)
    requires Lawful(codec) && UniqueAliases(aliases) && ReadCatalog(codec, body).Some?
    requires Rewritten(codec, body, ReadCatalog(codec, body).value.1, aliases).Some?
    ensures
      var fields := ReadCatalog(codec, body).value.0;
      var listed := Member(fields, "models").items;
      && codec.decode(Rewritten(codec, body, ReadCatalog(codec, body).value.1, aliases).value) ==
           Some(Object(fields["models" := Array(models)]))
      && OneHopCatalog(aliases, listed, models)
      && |names| == |models| && (forall i | 0 <= i < |models| :: IsNamed(models[i], names[i]))
      && InOrder(listed, names, kept)
  {
    hide ReadEntries, SourceOf, AliasMap, SortAliases, Output, AllAvailable, KeptNames, AddedNames, TotalBytes, Meaning,
      OneHop, Names, Within, Shallow, ReadsParts, Lawful, MembersMean, TextsMean;
    RewriteMeansOneHop(codec, body, aliases);
    ModelsWereRead(codec, body);
    var read := ReadCatalog(codec, body).value;
    var table, source := AliasMap(aliases), SourceOf(read.1);
    names := Names(aliases, read.1);
    models := Decoded(codec, Output(codec, table, source, names));
    EntriesRead(codec, RawModels(codec, body));
    NamesExact(aliases, read.1);
    NamesAvailable(aliases, read.1);
    AllResolve(aliases, read.1, Member(read.0, "models").items, names, models);
    kept := |KeptNames(table, source, Slugs(read.1))|;
    NamesInOrder(aliases, read.1, Member(read.0, "models").items);
  }

  lemma AllResolve(aliases: seq<Alias>, entries: seq<Entry>, listed: seq<Json>, names: seq<string>, models: seq<Json>)
    requires UniqueAliases(aliases) && WereRead(entries, listed) && |names| == |models| && NoRepeats(names)
    requires AllAvailable(AliasMap(aliases), SourceOf(entries), names)
    requires forall name :: name in names <==> TargetOf(AliasMap(aliases), name) in SourceOf(entries)
    requires forall i | 0 <= i < |names| :: models[i] == Object(Meaning(AliasMap(aliases), SourceOf(entries), names[i]))
    ensures OneHopCatalog(aliases, listed, models) && forall i | 0 <= i < |models| :: IsNamed(models[i], names[i])
  {
    hide SourceOf, AliasMap, Meaning, StandsFor, Resolves, TargetOf;
    forall i | 0 <= i < |models| ensures Resolves(aliases, listed, models[i]) && IsNamed(models[i], names[i]) {
      MeaningResolves(aliases, entries, listed, names[i]);
    }
    forall name, target | StandsFor(aliases, name, target) && Lists(listed, target) ensures Lists(models, name) {
      StandsForTarget(aliases, name, target);
      SourceListed(entries, listed, target);
      assert name in names;
      var i :| 0 <= i < |names| && names[i] == name;
      assert IsNamed(models[i], name);
    }
  }

  // ---------- Order ----------

  ghost predicate ListedAt(listed: seq<Json>, name: string, k: nat) {
    k < |listed| && IsNamed(listed[k], name)
  }

  /** The first names are listed ones in the order of the read catalog, the rest is not listed and ascends. */
  ghost predicate InOrder(listed: seq<Json>, names: seq<string>, kept: nat) {
    && kept <= |names|
    && (forall i, j, k, l | 0 <= i < j < kept && ListedAt(listed, names[i], k) && ListedAt(listed, names[j], l) ::
          k < l)
    && (forall i | 0 <= i < |names| :: i < kept <==> Lists(listed, names[i]))
    && forall i, j | kept <= i < j < |names| :: Less(names[i], names[j])
  }

  /** Keeping some of the slugs keeps their order. */
  lemma {:induction false} KeptOrder(table: map<string, string>, source: Source, slugs: seq<string>)
    returns (at: seq<nat>)
    ensures |at| == |KeptNames(table, source, slugs)|
    ensures forall i | 0 <= i < |at| :: at[i] < |slugs| && slugs[at[i]] == KeptNames(table, source, slugs)[i]
    ensures forall i, j | 0 <= i < j < |at| :: at[i] < at[j]
  {
    hide TargetOf;
    if slugs == [] {
      return [];
    }
    var n := |slugs| - 1;
    at := KeptOrder(table, source, slugs[..n]);
    assert slugs[..n] + [slugs[n]] == slugs;
    if TargetOf(table, slugs[n]) in source { at := at + [n]; }
  }

  lemma NamesInOrder(aliases: seq<Alias>, entries: seq<Entry>, listed: seq<Json>)
    requires UniqueAliases(aliases) && DistinctSlugs(entries) && WereRead(entries, listed)
    ensures InOrder(listed, Names(aliases, entries), |KeptNames(AliasMap(aliases), SourceOf(entries), Slugs(entries))|)
  {
    hide SourceOf, AliasMap, SortAliases, SlugOf, Lists, IsNamed, Less, KeptNames, AddedNames;
    var table, source, slugs := AliasMap(aliases), SourceOf(entries), Slugs(entries);
    var kept, added := KeptNames(table, source, slugs), AddedNames(source, SortAliases(aliases));
    var names := Names(aliases, entries);
    NamesExact(aliases, entries);
    ListedInSource(entries);
    var at := KeptOrder(table, source, slugs);
    forall i, j, k, l | 0 <= i < j < |kept| && ListedAt(listed, names[i], k) && ListedAt(listed, names[j], l)
      ensures k < l
    {
      AtListed(entries, listed, names[i], k, at[i]);
      AtListed(entries, listed, names[j], l, at[j]);
    }
    forall i | 0 <= i < |names| ensures i < |kept| <==> Lists(listed, names[i]) {
      SourceListed(entries, listed, names[i]);
      KeptOrAdded(table, source, slugs, SortAliases(aliases), names, i);
    }
    forall i, j | |kept| <= i < j < |names| ensures Less(names[i], names[j]) {
      assert names[i] == added[i - |kept|] && names[j] == added[j - |kept|];
    }
  }

  lemma AtListed(entries: seq<Entry>, listed: seq<Json>, name: string, k: nat, at: nat)
    requires DistinctSlugs(entries) && WereRead(entries, listed) && ListedAt(listed, name, k)
    requires at < |entries| && entries[at].slug == name
    ensures at == k
  {
    NamedSlug(entries[k].fields, name);
    assert entries[k].slug == name;
    assert at < k || k < at || at == k;
  }

  lemma KeptOrAdded(
    table: map<string, string>, source: Source, slugs: seq<string>, aliases: seq<Alias>, names: seq<string>, i: nat)
    requires names == KeptNames(table, source, slugs) + AddedNames(source, aliases) && i < |names|
    requires forall k | 0 <= k < |slugs| :: slugs[k] in source
    ensures i < |KeptNames(table, source, slugs)| <==> names[i] in source
  {
    var kept, added := KeptNames(table, source, slugs), AddedNames(source, aliases);
    if i < |kept| {
      assert names[i] == kept[i] && kept[i] in kept;
    } else {
      assert names[i] == added[i - |kept|] && added[i - |kept|] in added;
    }
  }

  // ---------- Which catalogs are read ----------

  /** A model has a slug that can be an identifier. */
  predicate IsModel(model: Json) {
    && model.Object? && "slug" in model.fields && model.fields["slug"].Text? && IsSlug(model.fields["slug"].text)
  }

  ghost predicate AreModels(models: seq<Json>) {
    && (forall i | 0 <= i < |models| :: IsModel(models[i]))
    && forall i, j | 0 <= i < j < |models| && IsModel(models[i]) && IsModel(models[j]) ::
         models[i].fields["slug"] != models[j].fields["slug"]
  }

  predicate IsSlug(slug: string) {
    && slug != "" && Utf8Length(slug) <= 256
    && forall c | c in slug :: c != '\U{FEFF}' && c >= '\U{20}' && !('\U{7F}' <= c <= '\U{9F}')
  }

  lemma SlugSays(slug: string)
    ensures ValidSlug(slug) <==> IsSlug(slug)
  {
    hide Utf8Length;
    if ValidSlug(slug) {
      forall c | c in slug ensures c != '\U{FEFF}' && !IsControl(c) {
        var i :| 0 <= i < |slug| && slug[i] == c;
      }
    } else {
      forall i | 0 <= i < |slug| ensures slug[i] in slug {}
    }
  }

  lemma EntrySays(codec: Codec, raw: Bytes)
    ensures codec.decode(raw).Some? ==> (ReadEntry(codec, raw).Some? <==> IsModel(codec.decode(raw).value))
    ensures ReadEntry(codec, raw).Some? ==>
      && codec.decode(raw).Some? && codec.decode(raw).value == Object(ReadEntry(codec, raw).value.fields)
      && IsNamed(codec.decode(raw).value, ReadEntry(codec, raw).value.slug)
  {
    hide IsSlug, ValidSlug;
    if codec.decode(raw).Some? && codec.decode(raw).value.Object? {
      SlugSays(SlugOf(codec.decode(raw).value.fields));
      SlugSays("");
      NoSlug();
    }
  }

  /** The entries of models that are read are their models. */
  ghost predicate EntriesOf(entries: seq<Entry>, items: seq<Json>) {
    |entries| == |items| && forall i | 0 <= i < |items| :: IsNamed(items[i], entries[i].slug)
  }

  lemma {:induction false} EntriesSay(codec: Codec, raws: seq<Bytes>, items: seq<Json>)
    requires TextsMean(codec, raws, items)
    ensures ReadEntries(codec, raws).Some? <==> AreModels(items)
    ensures ReadEntries(codec, raws).Some? ==> EntriesOf(ReadEntries(codec, raws).value, items)
  {
    hide ReadEntry, IsModel, CatalogRewrite.Lists;
    if raws != [] {
      var n := |raws| - 1;
      EntriesSay(codec, raws[..n], items[..n]);
      EntrySays(codec, raws[n]);
      assert items == items[..n] + [items[n]] && raws == raws[..n] + [raws[n]];
      if ReadEntries(codec, raws[..n]).Some? && ReadEntry(codec, raws[n]).Some? {
        ListsFresh(ReadEntries(codec, raws[..n]).value, items[..n], items[n], ReadEntry(codec, raws[n]).value.slug);
      }
      AreMore(items[..n], items[n]);
    }
  }

  /** A new model whose slug no earlier one has. */
  ghost predicate Fresh(items: seq<Json>, item: Json)
    requires IsModel(item)
  {
    forall i | 0 <= i < |items| && IsModel(items[i]) :: items[i].fields["slug"] != item.fields["slug"]
  }

  lemma NoSlug()
    ensures !IsSlug("")
  {
  }

  lemma AreMore(items: seq<Json>, item: Json)
    ensures AreModels(items + [item]) <==> AreModels(items) && IsModel(item) && Fresh(items, item)
  {
    hide IsSlug;
    assert (items + [item])[|items|] == item && forall i | 0 <= i < |items| :: (items + [item])[i] == items[i];
  }

  lemma ListsFresh(entries: seq<Entry>, items: seq<Json>, item: Json, slug: string)
    requires EntriesOf(entries, items) && AreModels(items) && IsModel(item) && IsNamed(item, slug)
    ensures CatalogRewrite.Lists(entries, slug) <==> !Fresh(items, item)
  {
    hide IsSlug;
    if i :| 0 <= i < |items| && items[i].fields["slug"] == Text(slug) { assert entries[i].slug == slug; }
  }

  /** A catalog is read exactly when it is bounded and well-formed, repeats no member, and lists at most 16384 models,
      each with its own acceptable slug. */
  lemma ReadSays(codec: Codec, body: Bytes)
    requires Lawful(codec)
    ensures ReadCatalog(codec, body).Some? <==>
      && 0 < |body| <= 4194304 && Utf8.Valid(body) && codec.uniqueNames(body)
      && codec.decode(body).Some? && codec.decode(body).value.Object?
      && var fields := codec.decode(body).value.fields;
        && "models" in fields && fields["models"].Array? && |fields["models"].items| <= 16384
        && AreModels(fields["models"].items)
    ensures ReadCatalog(codec, body).Some? ==>
      codec.decode(body) == Some(Object(ReadCatalog(codec, body).value.0))
  {
    hide ReadEntries, AreModels, Within, Utf8.Valid;
    assert ReadsParts(codec, body);
    if codec.decode(body).Some? && codec.decode(body).value.Object? {
      var fields := codec.decode(body).value.fields;
      if "models" in fields && fields["models"].Array? {
        assert ReadsParts(codec, codec.members(body)["models"]);
        EntriesSay(codec, RawModels(codec, body), fields["models"].items);
      }
    }
  }

  // ---------- Which catalogs change, and which rewrites are refused ----------

  /** An alias for another model redirects a listed name, or adds one for a listed model. */
  ghost predicate Touches(aliases: seq<Alias>, listed: seq<Json>) {
    exists i | 0 <= i < |aliases| ::
      if Lists(listed, aliases[i].requested) then aliases[i].upstream != aliases[i].requested
      else Lists(listed, aliases[i].upstream)
  }

  lemma ListedAlias(table: map<string, string>, aliases: seq<Alias>, name: string)
    requires UniqueAliases(aliases) && table == AliasMap(aliases) && TargetOf(table, name) != name
    ensures exists i | 0 <= i < |aliases| :: aliases[i] == Alias(name, TargetOf(table, name))
  {
    hide AliasMap;
    AliasMapHolds(aliases, name, TargetOf(table, name));
  }

  lemma AliasTarget(table: map<string, string>, aliases: seq<Alias>, i: nat)
    requires UniqueAliases(aliases) && table == AliasMap(aliases) && i < |aliases|
    ensures TargetOf(table, aliases[i].requested) == aliases[i].upstream
  {
    hide AliasMap;
    assert aliases[i] in aliases;
    AliasMapHolds(aliases, aliases[i].requested, aliases[i].upstream);
  }

  lemma RedirectsTouch(aliases: seq<Alias>, entries: seq<Entry>, listed: seq<Json>)
    requires UniqueAliases(aliases) && WereRead(entries, listed)
    ensures Redirects(AliasMap(aliases), Slugs(entries)) <==> exists i | 0 <= i < |aliases| ::
      Lists(listed, aliases[i].requested) && aliases[i].upstream != aliases[i].requested
  {
    hide AliasMap, TargetOf, SourceOf, SlugOf, IsNamed;
    var table := AliasMap(aliases);
    if k :| 0 <= k < |entries| && TargetOf(table, Slugs(entries)[k]) != Slugs(entries)[k] {
      ListedAlias(table, aliases, entries[k].slug);
      SlugNames(entries[k].fields, entries[k].slug);
      assert IsNamed(listed[k], entries[k].slug);
    }
    if i :| 0 <= i < |aliases| && Lists(listed, aliases[i].requested) && aliases[i].upstream != aliases[i].requested {
      AliasTarget(table, aliases, i);
      var k :| 0 <= k < |listed| && IsNamed(listed[k], aliases[i].requested);
      NamedSlug(entries[k].fields, aliases[i].requested);
      assert Slugs(entries)[k] == aliases[i].requested;
    }
  }

  lemma AddedTouch(aliases: seq<Alias>, entries: seq<Entry>, listed: seq<Json>)
    requires UniqueAliases(aliases) && WereRead(entries, listed)
    ensures AddedNames(SourceOf(entries), SortAliases(aliases)) != [] <==> exists i | 0 <= i < |aliases| ::
      !Lists(listed, aliases[i].requested) && Lists(listed, aliases[i].upstream)
  {
    hide AliasMap, SourceOf, SortAliases, SlugOf, Lists, AddedNames;
    var table, source, sorted := AliasMap(aliases), SourceOf(entries), SortAliases(aliases);
    SameTable(aliases);
    SortedMaps(aliases);
    AddedAvailable(table, source, sorted);
    forall name ensures name in source <==> Lists(listed, name) { SourceListed(entries, listed, name); }
    if AddedNames(source, sorted) != [] {
      var name := AddedNames(source, sorted)[0];
      assert name in AddedNames(source, sorted) && name !in source && TargetOf(table, name) in source;
      ListedAlias(table, aliases, name);
    }
    if i :| 0 <= i < |aliases| && !Lists(listed, aliases[i].requested) && Lists(listed, aliases[i].upstream) {
      assert aliases[i] in aliases;
      var k :| 0 <= k < |sorted| && sorted[k] == aliases[i];
      AddedHolds(source, sorted, k);
    }
  }

  lemma TouchesAffects(aliases: seq<Alias>, entries: seq<Entry>, listed: seq<Json>)
    requires UniqueAliases(aliases) && WereRead(entries, listed)
    ensures Affected(aliases, entries) <==> Touches(aliases, listed)
  {
    hide AliasMap, SourceOf, SortAliases, Lists, AddedNames, Slugs, Redirects;
    RedirectsTouch(aliases, entries, listed);
    AddedTouch(aliases, entries, listed);
  }

  /** A catalog that no alias touches comes back as it is; any other is written anew, and refused exactly when it would
      list more than 16384 models or take more than 4 MiB. */
  lemma TouchedSays(codec: Codec, body: Bytes, aliases: seq<Alias>)
    requires Lawful(codec) && UniqueAliases(aliases) && ReadCatalog(codec, body).Some?
    ensures
      var read := ReadCatalog(codec, body).value;
      var result := Rewritten(codec, body, read.1, aliases);
      && AllAvailable(AliasMap(aliases), SourceOf(read.1), Names(aliases, read.1))
      && var raws := Output(codec, AliasMap(aliases), SourceOf(read.1), Names(aliases, read.1));
        var written := codec.encodeObject(codec.members(body)["models" := codec.encodeArray(raws)]);
        if !Touches(aliases, Member(read.0, "models").items) then result == Some(body)
        else if |raws| > 16384 || TotalBytes(raws) > 4194304 || |written| > 4194304 then result == None
        else result == Some(written)
  {
    hide ReadCatalog, Lawful, SourceOf, AliasMap, Output, Names, AllAvailable, TotalBytes, Affected, Touches, Member;
    var read := ReadCatalog(codec, body).value;
    NamesAvailable(aliases, read.1);
    ModelsRead(codec, body);
    ModelsWereRead(codec, body);
    TouchesAffects(aliases, read.1, Member(read.0, "models").items);
    if !Affected(aliases, read.1) { UnaffectedSame(codec, body, aliases); }
  }
}
