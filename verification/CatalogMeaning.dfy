/** What a rewritten catalog says: one-hop resolution of every name. */
module CatalogMeaning {
  import opened Strings
  import opened Wrappers
  import opened CatalogRewrite

  // ---------- The codec ----------

  /** The nesting that Go's decoder accepts. */
  const MAX_NESTING: nat := 10000

  ghost predicate Within(j: Json, nesting: nat)
    decreases nesting
  {
    match j
    case Array(items) => nesting > 0 && forall i | 0 <= i < |items| :: Within(items[i], nesting - 1)
    case Object(fields) => nesting > 0 && forall name | name in fields :: Within(fields[name], nesting - 1)
    case _ => true
  }

  /** These raw members are those fields. */
  ghost predicate MembersMean(codec: Codec, members: Members, fields: Fields) {
    members.Keys == fields.Keys && forall key | key in fields :: codec.decode(members[key]) == Some(fields[key])
  }

  /** These raw texts are those values. */
  ghost predicate TextsMean(codec: Codec, raws: seq<Bytes>, items: seq<Json>) {
    |raws| == |items| && forall i | 0 <= i < |items| :: codec.decode(raws[i]) == Some(items[i])
  }

  /** What reading says: nesting is limited, and raw members and elements lie inside their text and mean its parts. */
  ghost predicate ReadsParts(codec: Codec, text: Bytes) {
    match codec.decode(text)
    case Some(Object(fields)) =>
      && Within(Object(fields), MAX_NESTING) && MembersMean(codec, codec.members(text), fields)
      && forall key | key in codec.members(text) :: |codec.members(text)[key]| <= |text|
    case Some(Array(items)) =>
      TextsMean(codec, codec.elements(text), items) && TotalBytes(codec.elements(text)) <= |text|
    case _ => true
  }

  /** Encoding a string, an object or an array from raw texts is undone by decoding, within the nesting limit. */
  ghost predicate Lawful(codec: Codec) {
    && (forall text :: ReadsParts(codec, text))
    && (forall s :: codec.decode(codec.encodeText(s)) == Some(Text(s)))
    && (forall members, fields | MembersMean(codec, members, fields) && Within(Object(fields), MAX_NESTING) ::
          codec.decode(codec.encodeObject(members)) == Some(Object(fields)))
    && (forall raws, items | TextsMean(codec, raws, items) && Within(Array(items), MAX_NESTING) ::
          codec.decode(codec.encodeArray(raws)) == Some(Array(items)))
  }

  function Decoded(codec: Codec, raws: seq<Bytes>): (r: seq<Json>)
    ensures |r| == |raws|
  {
    seq(|raws|, i requires 0 <= i < |raws| => if codec.decode(raws[i]).Some? then codec.decode(raws[i]).value else Null)
  }

  lemma {:induction false} NestingGrows(j: Json, nesting: nat, more: nat)
    requires Within(j, nesting) && nesting <= more
    ensures Within(j, more)
    decreases nesting
  {
    match j
    case Array(items) =>
      forall i | 0 <= i < |items| ensures Within(items[i], more - 1) {
        NestingGrows(items[i], nesting - 1, more - 1);
      }
    case Object(fields) =>
      forall name | name in fields ensures Within(fields[name], more - 1) {
        NestingGrows(fields[name], nesting - 1, more - 1);
      }
    case _ =>
  }

  lemma SlugIsIdentity()
    ensures IdentityMember("slug")
  {
  }

  /** Renaming the raw members renames what they mean. */
  lemma RenamedMeans(codec: Codec, members: Members, fields: Fields, name: string)
    requires codec.decode(codec.encodeText(name)) == Some(Text(name)) && MembersMean(codec, members, fields)
    ensures MembersMean(codec, RenamedMembers(codec, members, name), Renamed(fields, name))
  {
    hide IdentityMember;
    SlugIsIdentity();
    var raw, renamed := RenamedMembers(codec, members, name), Renamed(fields, name);
    assert raw.Keys == members.Keys + {"slug"} && renamed.Keys == fields.Keys + {"slug"};
    forall key | key in renamed ensures codec.decode(raw[key]) == Some(renamed[key]) {
      if !IdentityMember(key) { assert key in fields; }
    }
  }

  /** Renaming nests no deeper. */
  lemma RenamedWithin(fields: Fields, name: string, nesting: nat)
    requires Within(Object(fields), nesting)
    ensures Within(Object(Renamed(fields, name)), nesting)
  {
    hide IdentityMember;
    SlugIsIdentity();
    var renamed := Renamed(fields, name);
    forall key | key in renamed ensures Within(renamed[key], nesting - 1) {
      if !IdentityMember(key) { assert Within(fields[key], nesting - 1); }
    }
  }

  // ---------- The document ----------

  /** The raw models leave room for the two levels that surround them in the document. */
  ghost predicate Shallow(codec: Codec, raws: seq<Bytes>) {
    forall i | 0 <= i < |raws| :: codec.decode(raws[i]).Some? ==> Within(codec.decode(raws[i]).value, MAX_NESTING - 2)
  }

  /** The raw models of a catalog are its models, within its size and two levels below its nesting. */
  lemma ModelsRead(codec: Codec, body: Bytes)
    requires Lawful(codec) && ReadCatalog(codec, body).Some?
    ensures
      var fields, raws := ReadCatalog(codec, body).value.0, RawModels(codec, body);
      && codec.decode(body) == Some(Object(fields)) && Within(Object(fields), MAX_NESTING)
      && MembersMean(codec, codec.members(body), fields) && Member(fields, "models").Array?
      && TextsMean(codec, raws, Member(fields, "models").items) && TotalBytes(raws) <= |body| && Shallow(codec, raws)
  {
    hide ReadEntries, TotalBytes;
    var fields := ReadCatalog(codec, body).value.0;
    assert ReadsParts(codec, body);
    var text, models := codec.members(body)["models"], fields["models"];
    assert ReadsParts(codec, text) && codec.decode(text) == Some(models);
    assert Within(models, MAX_NESTING - 1);
    forall i | 0 <= i < |models.items| ensures Within(models.items[i], MAX_NESTING - 2) {}
  }

  /** Replacing the models by others of their depth. */
  lemma DocumentMeans(codec: Codec, body: Bytes, fields: Fields, raws: seq<Bytes>, models: seq<Json>)
    requires Lawful(codec) && MembersMean(codec, codec.members(body), fields) && Within(Object(fields), MAX_NESTING)
    requires TextsMean(codec, raws, models) && forall i | 0 <= i < |models| :: Within(models[i], MAX_NESTING - 2)
    ensures codec.decode(codec.encodeObject(codec.members(body)["models" := codec.encodeArray(raws)])) ==
      Some(Object(fields["models" := Array(models)]))
  {
    hide ReadsParts, TextsMean;
    assert Within(Array(models), MAX_NESTING - 1);
    NestingGrows(Array(models), MAX_NESTING - 1, MAX_NESTING);
    assert MembersMean(codec, codec.members(body)["models" := codec.encodeArray(raws)],
      fields["models" := Array(models)]);
    assert Within(Object(fields["models" := Array(models)]), MAX_NESTING);
  }

  // ---------- Entries ----------

  ghost predicate DistinctSlugs(entries: seq<Entry>) {
    forall i, j | 0 <= i < j < |entries| :: entries[i].slug != entries[j].slug
  }

  ghost predicate ReadFrom(codec: Codec, raw: Bytes, e: Entry) {
    && e.raw == raw && codec.decode(raw) == Some(Object(e.fields)) && e.members == codec.members(raw)
    && SlugOf(e.fields) == e.slug
  }

  lemma {:induction false} EntriesRead(codec: Codec, raws: seq<Bytes>)
    requires ReadEntries(codec, raws).Some?
    ensures var entries := ReadEntries(codec, raws).value;
      |entries| == |raws| && DistinctSlugs(entries) && forall i | 0 <= i < |raws| ::
        ReadFrom(codec, raws[i], entries[i])
  {
    hide SlugOf, ValidSlug;
    if raws != [] {
      var n := |raws| - 1;
      EntriesRead(codec, raws[..n]);
      assert forall i | 0 <= i < n :: raws[..n][i] == raws[i];
    }
  }

  lemma SourceEntry(entries: seq<Entry>, i: nat)
    requires DistinctSlugs(entries) && i < |entries|
    ensures entries[i].slug in SourceOf(entries) && SourceOf(entries)[entries[i].slug] == entries[i]
  {
    SourceKeys(entries, entries[i].slug);
    var found := SourceOf(entries)[entries[i].slug];
    var j :| 0 <= j < |entries| && entries[j] == found;
    assert i < j || j < i || i == j;
  }

  // ---------- Names ----------

  ghost predicate NoRepeats(names: seq<string>) {
    forall i, j | 0 <= i < j < |names| :: names[i] != names[j]
  }

  ghost predicate AscendingNames(names: seq<string>) {
    forall i, j | 0 <= i < j < |names| :: Less(names[i], names[j])
  }

  lemma {:induction false} KeptNoRepeats(table: map<string, string>, source: Source, slugs: seq<string>)
    requires NoRepeats(slugs)
    ensures NoRepeats(KeptNames(table, source, slugs))
  {
    hide TargetOf;
    if slugs != [] {
      var n := |slugs| - 1;
      KeptNoRepeats(table, source, slugs[..n]);
      var before := KeptNames(table, source, slugs[..n]);
      forall i | 0 <= i < |before| ensures before[i] != slugs[n] {
        assert before[i] in slugs[..n];
      }
    }
  }

  /** New aliases come in ascending order. */
  lemma {:induction false} AddedAscend(source: Source, aliases: seq<Alias>)
    requires Ascending(aliases)
    ensures AscendingNames(AddedNames(source, aliases))
    ensures forall name | name in AddedNames(source, aliases) :: exists i | 0 <= i < |aliases| ::
      aliases[i].requested == name
  {
    hide Less;
    if aliases != [] {
      var n := |aliases| - 1;
      var before := aliases[..n];
      AddedAscend(source, before);
      var names := AddedNames(source, before);
      forall i | 0 <= i < |names|
        ensures Less(names[i], aliases[n].requested) && exists j | 0 <= j < |aliases| ::
          aliases[j].requested == names[i]
      {
        assert names[i] in names;
        var j :| 0 <= j < |before| && before[j].requested == names[i];
        assert aliases[j] == before[j];
      }
    }
  }

  lemma AscendingNoRepeats(names: seq<string>)
    requires AscendingNames(names)
    ensures NoRepeats(names)
  {
    forall i, j | 0 <= i < j < |names| ensures names[i] != names[j] { LessTrichotomy(names[i], names[j]); }
  }

  lemma {:induction false} AddedHolds(source: Source, aliases: seq<Alias>, i: nat)
    requires i < |aliases| && aliases[i].requested !in source && aliases[i].upstream in source
    ensures aliases[i].requested in AddedNames(source, aliases)
  {
    if i < |aliases| - 1 { AddedHolds(source, aliases[..|aliases| - 1], i); }
  }

  /** The rewritten catalog names each name once, exactly when its target is listed: listed names in their order,
      then new aliases in ascending order. */
  lemma NamesExact(aliases: seq<Alias>, entries: seq<Entry>)
    requires UniqueAliases(aliases) && DistinctSlugs(entries)
    ensures NoRepeats(Names(aliases, entries))
    ensures forall name :: name in Names(aliases, entries) <==> TargetOf(AliasMap(aliases), name) in SourceOf(entries)
    ensures AscendingNames(AddedNames(SourceOf(entries), SortAliases(aliases)))
  {
    hide SourceOf, AliasMap, SortAliases, AscendingNames, Lists;
    var table, source := AliasMap(aliases), SourceOf(entries);
    SortSorts(aliases);
    AddedAscend(source, SortAliases(aliases));
    AscendingNoRepeats(AddedNames(source, SortAliases(aliases)));
    KeptNoRepeats(table, source, Slugs(entries));
    ListedInSource(entries);
    NamesAvailable(aliases, entries);
    forall name ensures name in Names(aliases, entries) <==> TargetOf(table, name) in source {
      NameListed(aliases, entries, name);
    }
    NamesApart(aliases, entries);
  }

  lemma NamesApart(aliases: seq<Alias>, entries: seq<Entry>)
    requires NoRepeats(KeptNames(AliasMap(aliases), SourceOf(entries), Slugs(entries)))
    requires NoRepeats(AddedNames(SourceOf(entries), SortAliases(aliases)))
    ensures NoRepeats(Names(aliases, entries))
  {
    hide SourceOf, AliasMap, SortAliases, TargetOf;
    ListedInSource(entries);
    var kept, added := KeptNames(AliasMap(aliases), SourceOf(entries), Slugs(entries)),
      AddedNames(SourceOf(entries), SortAliases(aliases));
    forall i, j | 0 <= i < |kept| && 0 <= j < |added| ensures kept[i] != added[j] {
      assert kept[i] in kept && added[j] in added;
      assert kept[i] in Slugs(entries);
    }
  }

  lemma NameListed(aliases: seq<Alias>, entries: seq<Entry>, name: string)
    requires UniqueAliases(aliases)
    ensures name in Names(aliases, entries) <==> TargetOf(AliasMap(aliases), name) in SourceOf(entries)
  {
    hide SourceOf, AliasMap, SortAliases;
    var table, source := AliasMap(aliases), SourceOf(entries);
    NamesAvailable(aliases, entries);
    if TargetOf(table, name) in source {
      if name in source {
        SourceKeys(entries, name);
        var i :| 0 <= i < |entries| && entries[i].slug == name;
        assert Slugs(entries)[i] == name;
      } else {
        assert Maps(table, name, table[name]);
        AliasMapHolds(aliases, name, table[name]);
        SameTable(aliases);
        var i :| 0 <= i < |SortAliases(aliases)| && SortAliases(aliases)[i] == Alias(name, table[name]);
        AddedHolds(source, SortAliases(aliases), i);
      }
    }
  }

  // ---------- The catalog ----------

  /** Every model is what its own slug means, no slug repeats, and every name whose target is listed is there. */
  ghost predicate OneHop(table: map<string, string>, source: Source, models: seq<Json>) {
    && (forall i | 0 <= i < |models| :: ModelMeans(table, source, models[i]))
    && (forall i, j | 0 <= i < j < |models| && models[i].Object? && models[j].Object? ::
          SlugOf(models[i].fields) != SlugOf(models[j].fields))
    && (forall name | TargetOf(table, name) in source :: exists i | 0 <= i < |models| ::
          models[i].Object? && SlugOf(models[i].fields) == name)
  }

  ghost predicate ModelMeans(table: map<string, string>, source: Source, model: Json) {
    && model.Object? && TargetOf(table, SlugOf(model.fields)) in source
    && model.fields == Meaning(table, source, SlugOf(model.fields))
  }

  lemma MeaningNamed(codec: Codec, raws: seq<Bytes>, table: map<string, string>, name: string)
    requires ReadEntries(codec, raws).Some?
    requires TargetOf(table, name) in SourceOf(ReadEntries(codec, raws).value)
    ensures SlugOf(Meaning(table, SourceOf(ReadEntries(codec, raws).value), name)) == name
  {
    hide ReadEntries, SourceOf;
    EntriesRead(codec, raws);
    var entries := ReadEntries(codec, raws).value;
    SourceKeys(entries, name);
    if TargetOf(table, name) == name {
      var i :| 0 <= i < |entries| && entries[i] == SourceOf(entries)[name];
      assert ReadFrom(codec, raws[i], entries[i]);
    }
  }

  /** The text written for a name decodes to the name's meaning. */
  lemma RawMeaning(codec: Codec, raws: seq<Bytes>, table: map<string, string>, name: string)
    requires Lawful(codec) && Shallow(codec, raws) && ReadEntries(codec, raws).Some?
    requires TargetOf(table, name) in SourceOf(ReadEntries(codec, raws).value)
    ensures
      var source := SourceOf(ReadEntries(codec, raws).value);
      && codec.decode(RawFor(codec, table, source, name)) == Some(Object(Meaning(table, source, name)))
      && Within(Object(Meaning(table, source, name)), MAX_NESTING - 2)
  {
    hide ReadEntries, SourceOf, Within, Renamed, RenamedMembers, SlugOf, MembersMean, TextsMean;
    EntriesRead(codec, raws);
    var entries := ReadEntries(codec, raws).value;
    var source, target := SourceOf(entries), TargetOf(table, name);
    SourceKeys(entries, target);
    var i :| 0 <= i < |entries| && entries[i] == source[target];
    assert ReadFrom(codec, raws[i], entries[i]);
    assert ReadsParts(codec, raws[i]);
    RenamedMeans(codec, source[target].members, source[target].fields, name);
    RenamedWithin(source[target].fields, name, MAX_NESTING - 2);
    NestingGrows(Object(Meaning(table, source, name)), MAX_NESTING - 2, MAX_NESTING);
  }

  /** The names' meanings, in order, are a one-hop catalog. */
  lemma OutputOneHop(codec: Codec, raws: seq<Bytes>, aliases: seq<Alias>)
    requires Lawful(codec) && Shallow(codec, raws) && UniqueAliases(aliases) && ReadEntries(codec, raws).Some?
    ensures
      var entries := ReadEntries(codec, raws).value;
      var table, source, names := AliasMap(aliases), SourceOf(entries), Names(aliases, entries);
      && AllAvailable(table, source, names)
      && OneHop(table, source, Decoded(codec, Output(codec, table, source, names)))
      && TextsMean(codec, Output(codec, table, source, names), Decoded(codec, Output(codec, table, source, names)))
      && forall i | 0 <= i < |names| ::
           && Decoded(codec, Output(codec, table, source, names))[i] == Object(Meaning(table, source, names[i]))
           && Within(Decoded(codec, Output(codec, table, source, names))[i], MAX_NESTING - 2)
  {
    hide ReadEntries, SourceOf, AliasMap, Names, Lawful, SlugOf, Meaning, RawFor, Within, Shallow;
    var entries := ReadEntries(codec, raws).value;
    EntriesRead(codec, raws);
    var table, source, names := AliasMap(aliases), SourceOf(entries), Names(aliases, entries);
    NamesAvailable(aliases, entries);
    NamesExact(aliases, entries);
    var models := Decoded(codec, Output(codec, table, source, names));
    forall i | 0 <= i < |names|
      ensures models[i] == Object(Meaning(table, source, names[i])) && SlugOf(models[i].fields) == names[i]
      ensures Within(models[i], MAX_NESTING - 2) &&
        codec.decode(Output(codec, table, source, names)[i]) == Some(models[i])
    {
      MeaningNamed(codec, raws, table, names[i]);
      RawMeaning(codec, raws, table, names[i]);
    }
    ModelsOneHop(table, source, names, models);
  }

  lemma ModelsOneHop(table: map<string, string>, source: Source, names: seq<string>, models: seq<Json>)
    requires AllAvailable(table, source, names) && NoRepeats(names) && |names| == |models|
    requires forall name | TargetOf(table, name) in source :: name in names
    requires forall i | 0 <= i < |names| ::
      models[i] == Object(Meaning(table, source, names[i])) && SlugOf(models[i].fields) == names[i]
    ensures OneHop(table, source, models)
  {
    hide SlugOf, Meaning, TargetOf;
    forall name | TargetOf(table, name) in source
      ensures exists i | 0 <= i < |models| :: models[i].Object? && SlugOf(models[i].fields) == name
    {
      assert name in names;
      var i :| 0 <= i < |names| && names[i] == name;
      assert models[i].Object? && SlugOf(models[i].fields) == name;
    }
  }

  /** A catalog that no alias touches is returned as it came, and never refused. */
  lemma UnaffectedSame(codec: Codec, body: Bytes, aliases: seq<Alias>)
    requires Lawful(codec) && UniqueAliases(aliases) && ReadCatalog(codec, body).Some?
    requires !Affected(aliases, ReadCatalog(codec, body).value.1)
    ensures
      var read := ReadCatalog(codec, body).value;
      && Rewritten(codec, body, read.1, aliases) == Some(body)
      && Names(aliases, read.1) == Slugs(read.1)
  {
    hide ReadEntries, SourceOf, AliasMap, SortAliases, Output, AllAvailable, KeptNames, AddedNames, TotalBytes, Lawful,
      Within, MembersMean, Shallow;
    var raws := RawModels(codec, body);
    var entries := ReadEntries(codec, raws).value;
    EntriesRead(codec, raws);
    NamesAvailable(aliases, entries);
    ListedInSource(entries);
    KeepsAll(AliasMap(aliases), SourceOf(entries), Slugs(entries));
    assert Slugs(entries) + [] == Slugs(entries);
    SameRaws(codec, raws, aliases);
    ModelsRead(codec, body);
  }

  lemma {:induction false} KeepsAll(table: map<string, string>, source: Source, slugs: seq<string>)
    requires !Redirects(table, slugs) && forall i | 0 <= i < |slugs| :: slugs[i] in source
    ensures KeptNames(table, source, slugs) == slugs
  {
    if slugs != [] {
      var n := |slugs| - 1;
      assert slugs[..n] + [slugs[n]] == slugs;
      RedirectsExtend(table, slugs[..n], slugs[n]);
      KeepsAll(table, source, slugs[..n]);
    }
  }

  lemma SameRaws(codec: Codec, raws: seq<Bytes>, aliases: seq<Alias>)
    requires ReadEntries(codec, raws).Some?
    requires !Redirects(AliasMap(aliases), Slugs(ReadEntries(codec, raws).value))
    ensures
      var entries := ReadEntries(codec, raws).value;
      AllAvailable(AliasMap(aliases), SourceOf(entries), Slugs(entries)) &&
      Output(codec, AliasMap(aliases), SourceOf(entries), Slugs(entries)) == raws
  {
    hide ReadEntries, SourceOf, AliasMap;
    EntriesRead(codec, raws);
    var entries := ReadEntries(codec, raws).value;
    forall i | 0 <= i < |raws|
      ensures TargetOf(AliasMap(aliases), Slugs(entries)[i]) == Slugs(entries)[i]
      ensures Slugs(entries)[i] in SourceOf(entries) && SourceOf(entries)[Slugs(entries)[i]].raw == raws[i]
    {
      SourceEntry(entries, i);
      assert ReadFrom(codec, raws[i], entries[i]);
    }
    assert Output(codec, AliasMap(aliases), SourceOf(entries), Slugs(entries)) == raws;
  }

  /** Whatever a successful rewrite returns decodes to the same document with a one-hop list of models. */
  lemma RewriteMeansOneHop(codec: Codec, body: Bytes, aliases: seq<Alias>)
    requires Lawful(codec) && UniqueAliases(aliases) && ReadCatalog(codec, body).Some?
    requires
      var read := ReadCatalog(codec, body).value;
      Rewritten(codec, body, read.1, aliases).Some?
    ensures
      var read := ReadCatalog(codec, body).value;
      var table, source, names := AliasMap(aliases), SourceOf(read.1), Names(aliases, read.1);
      && AllAvailable(table, source, names)
      && var models := Decoded(codec, Output(codec, table, source, names));
        && codec.decode(Rewritten(codec, body, read.1, aliases).value) ==
           Some(Object(read.0["models" := Array(models)]))
        && OneHop(table, source, models)
        && forall i | 0 <= i < |names| :: models[i] == Object(Meaning(table, source, names[i]))
  {
    hide ReadEntries, SourceOf, AliasMap, SortAliases, Output, AllAvailable, KeptNames, AddedNames, TotalBytes, Meaning,
      OneHop, Names, Within, Shallow, ReadsParts, Lawful, MembersMean, TextsMean;
    var read := ReadCatalog(codec, body).value;
    ModelsRead(codec, body);
    OutputOneHop(codec, RawModels(codec, body), aliases);
    if Affected(aliases, read.1) {
      var raws := Output(codec, AliasMap(aliases), SourceOf(read.1), Names(aliases, read.1));
      DocumentMeans(codec, body, read.0, raws, Decoded(codec, raws));
    } else {
      UnaffectedSame(codec, body, aliases);
      SameRaws(codec, RawModels(codec, body), aliases);
      SameModels(codec, body);
    }
  }

  lemma SameModels(codec: Codec, body: Bytes)
    requires Lawful(codec) && ReadCatalog(codec, body).Some?
    ensures
      var fields := ReadCatalog(codec, body).value.0;
      fields["models" := Array(Decoded(codec, RawModels(codec, body)))] == fields
  {
    hide ReadEntries, Lawful, Within, Shallow, TotalBytes;
    ModelsRead(codec, body);
    var fields := ReadCatalog(codec, body).value.0;
    assert Decoded(codec, RawModels(codec, body)) == Member(fields, "models").items;
  }
}
