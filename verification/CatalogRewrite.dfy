/** Rewriting a captured model catalog under route aliases: every name means its target's original entry, one hop. */
module CatalogRewrite {
  import opened Strings
  import opened Wrappers
  import Utf8

  type Bytes = Utf8.Bytes

  datatype Json = Null | Text(text: string) | Array(items: seq<Json>) | Object(fields: Fields) | Scalar(literal: Bytes)

  type Fields = map<string, Json>

  datatype Alias = Alias(requested: string, upstream: string)

  /** Raw texts of an object's members. */
  type Members = map<string, Bytes>

  /** The JSON codec: values, the raw texts of an object's members and of an array's elements, the encoding of a string,
      of an object and of an array from raw texts, and the check for repeated member names. */
  datatype Codec = Codec(
    decode: Bytes -> Option<Json>, members: Bytes -> Members, elements: Bytes -> seq<Bytes>,
    encodeText: string -> Bytes, encodeObject: Members -> Bytes, encodeArray: seq<Bytes> -> Bytes,
    uniqueNames: Bytes -> bool)

  const MAX_BODY_BYTES := 4194304
  const MAX_MODEL_ID_BYTES := 256
  const MAX_MODELS := 16384

  // ---------- Reading the catalog ----------

  /** One listed model with its original text and the texts of its members. */
  datatype Entry = Entry(slug: string, raw: Bytes, members: Members, fields: Fields)

  function RawModels(codec: Codec, body: Bytes): seq<Bytes> {
    if "models" in codec.members(body) then codec.elements(codec.members(body)["models"]) else []
  }

  predicate ValidSlug(slug: string) {
    && slug != "" && Utf8Length(slug) <= MAX_MODEL_ID_BYTES
    && forall i | 0 <= i < |slug| :: !IsControl(slug[i]) && slug[i] != '\U{FEFF}'
  }

  function Member(fields: Fields, name: string): Json {
    if name in fields then fields[name] else Null
  }

  function SlugOf(fields: Fields): string {
    if Member(fields, "slug").Text? then Member(fields, "slug").text else ""
  }

  function ReadEntry(codec: Codec, raw: Bytes): Option<Entry> {
    match codec.decode(raw)
    case Some(Object(fields)) =>
      if ValidSlug(SlugOf(fields)) then Some(Entry(SlugOf(fields), raw, codec.members(raw), fields)) else None
    case _ => None
  }

  predicate Lists(entries: seq<Entry>, slug: string) {
    exists i | 0 <= i < |entries| :: entries[i].slug == slug
  }

  /** All models, none malformed and no slug twice. */
  function ReadEntries(codec: Codec, raws: seq<Bytes>): Option<seq<Entry>> {
    if raws == [] then Some([])
    else
      var before := ReadEntries(codec, raws[..|raws| - 1]);
      var last := ReadEntry(codec, raws[|raws| - 1]);
      if before.None? || last.None? || Lists(before.value, last.value.slug) then None
      else Some(before.value + [last.value])
  }

  /** The top-level members and the models of an acceptable catalog. */
  function ReadCatalog(codec: Codec, body: Bytes): Option<(Fields, seq<Entry>)> {
    if body == [] || |body| > MAX_BODY_BYTES || !Utf8.Valid(body) || !codec.uniqueNames(body) then None
    else match codec.decode(body)
      case Some(Object(fields)) =>
        if !Member(fields, "models").Array? || |Member(fields, "models").items| > MAX_MODELS then None
        else
          var entries := ReadEntries(codec, RawModels(codec, body));
          if entries.Some? then Some((fields, entries.value)) else None
      case _ => None
  }

  type Source = map<string, Entry>

  function SourceOf(entries: seq<Entry>): Source {
    if entries == [] then map[]
    else SourceOf(entries[..|entries| - 1])[entries[|entries| - 1].slug := entries[|entries| - 1]]
  }

  method IndexModels(codec: Codec, raws: seq<Bytes>) returns (r: Option<(seq<string>, Source)>)
    ensures r.Some? <==> ReadEntries(codec, raws).Some?
    ensures r.Some? ==>
      var entries := ReadEntries(codec, raws).value;
      r.value.0 == Slugs(entries) && r.value.1 == SourceOf(entries) && |entries| == |raws|
  {
    hide ReadEntry, ReadEntries, SourceOf, Slugs;
    var slugs, source: Source := [], map[];
    NothingIndexed(codec);
    for i := 0 to |raws|
      invariant ReadEntries(codec, raws[..i]).Some? && |ReadEntries(codec, raws[..i]).value| == i
      invariant slugs == Slugs(ReadEntries(codec, raws[..i]).value)
      invariant source == SourceOf(ReadEntries(codec, raws[..i]).value)
    {
      IndexStep(codec, raws[..i], raws[i]);
      assert raws[..i] + [raws[i]] == raws[..i + 1];
      var entry := ReadEntry(codec, raws[i]);
      if entry.None? || entry.value.slug in source {
        ReadFails(codec, raws, i + 1);
        return None;
      }
      slugs, source := slugs + [entry.value.slug], source[entry.value.slug := entry.value];
    }
    assert raws[..|raws|] == raws;
    return Some((slugs, source));
  }

  lemma NothingIndexed(codec: Codec)
    ensures ReadEntries(codec, []) == Some([]) && Slugs([]) == [] && SourceOf([]) == map[]
  {
  }

  lemma IndexStep(codec: Codec, raws: seq<Bytes>, raw: Bytes)
    requires ReadEntries(codec, raws).Some?
    ensures
      var before, entry := ReadEntries(codec, raws).value, ReadEntry(codec, raw);
      if entry.None? || entry.value.slug in SourceOf(before) then ReadEntries(codec, raws + [raw]).None?
      else
        && ReadEntries(codec, raws + [raw]) == Some(before + [entry.value])
        && Slugs(before + [entry.value]) == Slugs(before) + [entry.value.slug]
        && SourceOf(before + [entry.value]) == SourceOf(before)[entry.value.slug := entry.value]
  {
    hide ReadEntry, ReadEntries, SourceOf, Slugs, Lists;
    var before, entry := ReadEntries(codec, raws).value, ReadEntry(codec, raw);
    ReadAppend(codec, raws, raw);
    if entry.Some? {
      SourceKeys(before, entry.value.slug);
      SlugsAppend(before, entry.value);
      SourceAppend(before, entry.value);
    }
  }

  lemma ReadAppend(codec: Codec, raws: seq<Bytes>, raw: Bytes)
    requires ReadEntries(codec, raws).Some?
    ensures
      var before, entry := ReadEntries(codec, raws).value, ReadEntry(codec, raw);
      ReadEntries(codec, raws + [raw]) ==
        if entry.None? || Lists(before, entry.value.slug) then None else Some(before + [entry.value])
  {
    hide ReadEntry, Lists;
    assert (raws + [raw])[..|raws|] == raws;
  }

  lemma SlugsAppend(entries: seq<Entry>, entry: Entry)
    ensures Slugs(entries + [entry]) == Slugs(entries) + [entry.slug]
  {
    var more, slugs := Slugs(entries + [entry]), Slugs(entries) + [entry.slug];
    assert |more| == |slugs|;
    forall i | 0 <= i < |more| ensures more[i] == slugs[i] {
      assert (entries + [entry])[i] == if i < |entries| then entries[i] else entry;
    }
  }

  lemma SourceAppend(entries: seq<Entry>, entry: Entry)
    ensures SourceOf(entries + [entry]) == SourceOf(entries)[entry.slug := entry]
  {
    assert (entries + [entry])[..|entries|] == entries;
  }

  function Slugs(entries: seq<Entry>): (r: seq<string>)
    ensures |r| == |entries| && forall i | 0 <= i < |entries| :: r[i] == entries[i].slug
  {
    seq(|entries|, i requires 0 <= i < |entries| => entries[i].slug)
  }

  lemma {:induction false} SourceKeys(entries: seq<Entry>, slug: string)
    ensures slug in SourceOf(entries) <==> Lists(entries, slug)
    ensures slug in SourceOf(entries) ==> SourceOf(entries)[slug] in entries && SourceOf(entries)[slug].slug == slug
  {
    if entries != [] {
      var n := |entries| - 1;
      var before := entries[..n];
      SourceKeys(before, slug);
      if Lists(before, slug) {
        var i :| 0 <= i < n && before[i].slug == slug;
        assert entries[i].slug == slug;
      }
    }
  }

  lemma {:induction false} ReadFails(codec: Codec, raws: seq<Bytes>, n: nat)
    requires n <= |raws| && ReadEntries(codec, raws[..n]).None?
    ensures ReadEntries(codec, raws).None?
  {
    hide ReadEntry;
    if n == |raws| {
      assert raws[..n] == raws;
    } else {
      assert raws[..|raws| - 1][..n] == raws[..n];
      ReadFails(codec, raws[..|raws| - 1], n);
    }
  }

  // ---------- Aliases ----------

  predicate UniqueAliases(aliases: seq<Alias>) {
    forall i, j | 0 <= i < j < |aliases| :: aliases[i].requested != aliases[j].requested
  }

  predicate Ascending(aliases: seq<Alias>) {
    forall i, j | 0 <= i < j < |aliases| :: Less(aliases[i].requested, aliases[j].requested)
  }

  function Insert(aliases: seq<Alias>, a: Alias): seq<Alias> {
    if aliases == [] || Less(a.requested, aliases[0].requested) then [a] + aliases
    else [aliases[0]] + Insert(aliases[1..], a)
  }

  function SortAliases(aliases: seq<Alias>): seq<Alias> {
    if aliases == [] then [] else Insert(SortAliases(aliases[..|aliases| - 1]), aliases[|aliases| - 1])
  }

  lemma {:induction false} InsertSorts(aliases: seq<Alias>, a: Alias)
    requires Ascending(aliases) && forall b | b in aliases :: b.requested != a.requested
    ensures Ascending(Insert(aliases, a)) && multiset(Insert(aliases, a)) == multiset(aliases) + multiset{a}
  {
    if aliases == [] {
    } else if Less(a.requested, aliases[0].requested) {
      forall i | 0 <= i < |aliases| ensures Less(a.requested, aliases[i].requested) {
        if i > 0 { LessTransitive(a.requested, aliases[0].requested, aliases[i].requested); }
      }
    } else {
      LessTrichotomy(a.requested, aliases[0].requested);
      assert aliases[0] in aliases && aliases == [aliases[0]] + aliases[1..];
      InsertSorts(aliases[1..], a);
      InsertHead(aliases[0], aliases[1..], a);
    }
  }

  lemma InsertHead(head: Alias, rest: seq<Alias>, a: Alias)
    requires Ascending([head] + rest) && Less(head.requested, a.requested)
    requires Ascending(Insert(rest, a)) && multiset(Insert(rest, a)) == multiset(rest) + multiset{a}
    ensures Ascending([head] + Insert(rest, a))
  {
    hide Less, Insert;
    var more, whole := Insert(rest, a), [head] + rest;
    forall i | 0 <= i < |more| ensures Less(head.requested, more[i].requested) {
      assert more[i] in multiset(more);
      if more[i] != a {
        assert more[i] in multiset(rest);
        var j :| 0 <= j < |rest| && rest[j] == more[i];
        assert whole[j + 1] == rest[j] && Less(whole[0].requested, whole[j + 1].requested);
      }
    }
  }

  /** Sorting orders the aliases by name and keeps each. */
  lemma {:induction false} SortSorts(aliases: seq<Alias>)
    requires UniqueAliases(aliases)
    ensures Ascending(SortAliases(aliases)) && multiset(SortAliases(aliases)) == multiset(aliases)
  {
    hide Insert, Ascending;
    if aliases == [] {
      EmptyAscends();
    } else {
      var n := |aliases| - 1;
      SortSorts(aliases[..n]);
      assert aliases == aliases[..n] + [aliases[n]];
      forall b | b in SortAliases(aliases[..n]) ensures b.requested != aliases[n].requested {
        assert b in multiset(SortAliases(aliases[..n]));
        assert b in aliases[..n];
      }
      InsertSorts(SortAliases(aliases[..n]), aliases[n]);
    }
  }

  lemma EmptyAscends()
    ensures Ascending([])
  {
  }

  function AliasMap(aliases: seq<Alias>): map<string, string> {
    if aliases == [] then map[]
    else AliasMap(aliases[..|aliases| - 1])[aliases[|aliases| - 1].requested := aliases[|aliases| - 1].upstream]
  }

  predicate Maps(table: map<string, string>, name: string, target: string) {
    name in table && table[name] == target
  }

  /** The table holds exactly the aliases. */
  lemma {:induction false} AliasMapHolds(aliases: seq<Alias>, name: string, target: string)
    requires UniqueAliases(aliases)
    ensures Maps(AliasMap(aliases), name, target) <==> Alias(name, target) in aliases
  {
    if aliases != [] {
      var n := |aliases| - 1;
      AliasMapHolds(aliases[..n], name, target);
      assert aliases == aliases[..n] + [aliases[n]];
      if Alias(name, target) in aliases[..n] {
        var i :| 0 <= i < n && aliases[i] == Alias(name, target);
        assert aliases[i].requested != aliases[n].requested;
      }
    }
  }

  /** Sorting changes the order only. */
  lemma SameTable(aliases: seq<Alias>)
    requires UniqueAliases(aliases)
    ensures AliasMap(SortAliases(aliases)) == AliasMap(aliases) && UniqueAliases(SortAliases(aliases))
    ensures forall a :: a in SortAliases(aliases) <==> a in aliases
  {
    hide SortAliases, AliasMap;
    SortSorts(aliases);
    var sorted := SortAliases(aliases);
    AscendingUnique(sorted);
    assert forall a :: a in sorted <==> a in multiset(sorted);
    assert forall a :: a in aliases <==> a in multiset(aliases);
    forall name, target ensures Maps(AliasMap(sorted), name, target) <==> Maps(AliasMap(aliases), name, target) {
      AliasMapHolds(sorted, name, target);
      AliasMapHolds(aliases, name, target);
    }
    SameMap(AliasMap(sorted), AliasMap(aliases));
  }

  lemma AscendingUnique(aliases: seq<Alias>)
    requires Ascending(aliases)
    ensures UniqueAliases(aliases)
  {
    forall i, j | 0 <= i < j < |aliases| ensures aliases[i].requested != aliases[j].requested {
      LessTrichotomy(aliases[i].requested, aliases[j].requested);
    }
  }

  lemma SameMap(a: map<string, string>, b: map<string, string>)
    requires forall name, target :: Maps(a, name, target) <==> Maps(b, name, target)
    ensures a == b
  {
    forall name ensures name in a <==> name in b {
      if name in a { assert Maps(a, name, a[name]); }
      if name in b { assert Maps(b, name, b[name]); }
    }
    forall name | name in a ensures a[name] == b[name] { assert Maps(a, name, a[name]); }
  }

  // ---------- What a name means ----------

  function TargetOf(table: map<string, string>, name: string): string {
    if name in table then table[name] else name
  }

  /** The target's entry under another name: only the identity members change. */
  function Renamed(fields: Fields, name: string): Fields {
    map key | key in fields.Keys + {"slug"} :: if IdentityMember(key) then Text(name) else fields[key]
  }

  /** One hop: the original entry of the target, renamed when the name is not the target's own. */
  function Meaning(table: map<string, string>, source: Source, name: string): Fields
    requires TargetOf(table, name) in source
  {
    if TargetOf(table, name) == name then source[name].fields else Renamed(source[TargetOf(table, name)].fields, name)
  }

  predicate IdentityMember(key: string) {
    key == "slug" || key == "id" || key == "display_name"
  }

  /** The same on raw texts, as the rewrite copies them. */
  function RenamedMembers(codec: Codec, members: Members, name: string): Members {
    map key | key in members.Keys + {"slug"} :: if IdentityMember(key) then codec.encodeText(name) else members[key]
  }

  function RawFor(codec: Codec, table: map<string, string>, source: Source, name: string): Bytes
    requires TargetOf(table, name) in source
  {
    if TargetOf(table, name) == name then source[name].raw
    else codec.encodeObject(RenamedMembers(codec, source[TargetOf(table, name)].members, name))
  }

  /** The listed names that stay, in their order. */
  function KeptNames(table: map<string, string>, source: Source, slugs: seq<string>): (r: seq<string>)
    ensures forall name :: name in r <==> name in slugs && TargetOf(table, name) in source
  {
    if slugs == [] then []
    else
      var last := slugs[|slugs| - 1];
      KeptNames(table, source, slugs[..|slugs| - 1]) + if TargetOf(table, last) in source then [last] else []
  }

  /** The aliases that the catalog does not list and whose target it does, in the given order. */
  function AddedNames(source: Source, aliases: seq<Alias>): (r: seq<string>)
    ensures forall name | name in r :: name !in source
  {
    if aliases == [] then []
    else
      var last := aliases[|aliases| - 1];
      AddedNames(source, aliases[..|aliases| - 1]) +
      if last.requested !in source && last.upstream in source then [last.requested] else []
  }

  predicate AllAvailable(table: map<string, string>, source: Source, names: seq<string>) {
    forall i | 0 <= i < |names| :: TargetOf(table, names[i]) in source
  }

  function Output(codec: Codec, table: map<string, string>, source: Source, names: seq<string>): (r: seq<Bytes>)
    requires AllAvailable(table, source, names)
    ensures |r| == |names|
  {
    seq(|names|, i requires 0 <= i < |names| => RawFor(codec, table, source, names[i]))
  }

  function TotalBytes(raws: seq<Bytes>): nat {
    if raws == [] then 0 else TotalBytes(raws[..|raws| - 1]) + |raws[|raws| - 1]|
  }

  predicate Fits(raws: seq<Bytes>) {
    |raws| <= MAX_MODELS && TotalBytes(raws) <= MAX_BODY_BYTES
  }

  /** An alias redirects a listed model. */
  predicate Redirects(table: map<string, string>, slugs: seq<string>) {
    exists i | 0 <= i < |slugs| :: TargetOf(table, slugs[i]) != slugs[i]
  }

  // ---------- The rewrite ----------

  /** Names in the order in which the catalog lists them after the rewrite. */
  function Names(aliases: seq<Alias>, entries: seq<Entry>): seq<string> {
    KeptNames(AliasMap(aliases), SourceOf(entries), Slugs(entries)) +
      AddedNames(SourceOf(entries), SortAliases(aliases))
  }

  predicate Affected(aliases: seq<Alias>, entries: seq<Entry>) {
    Redirects(AliasMap(aliases), Slugs(entries)) || AddedNames(SourceOf(entries), SortAliases(aliases)) != []
  }

  method KeepModels(codec: Codec, table: map<string, string>, source: Source, slugs: seq<string>)
    returns (r: Option<(seq<Bytes>, nat, bool)>)
    requires forall i | 0 <= i < |slugs| :: slugs[i] in source
    ensures AllAvailable(table, source, KeptNames(table, source, slugs))
    ensures
      var raws := Output(codec, table, source, KeptNames(table, source, slugs));
      if Fits(raws) then r == Some((raws, TotalBytes(raws), Redirects(table, slugs))) else r.None?
  {
    hide RawFor, TotalBytes, KeptNames, Output, Redirects, AllAvailable;
    var output: seq<Bytes>, outputBytes: nat, modified := [], 0, false;
    NothingOutput(codec, table, source);
    for i := 0 to |slugs|
      invariant AllAvailable(table, source, KeptNames(table, source, slugs[..i]))
      invariant output == Output(codec, table, source, KeptNames(table, source, slugs[..i]))
      invariant outputBytes == TotalBytes(output) && Fits(output)
      invariant modified == Redirects(table, slugs[..i])
    {
      assert slugs[..i + 1] == slugs[..i] + [slugs[i]];
      RedirectsExtend(table, slugs[..i], slugs[i]);
      KeepOne(codec, table, source, slugs[..i], slugs[i]);
      var target := TargetOf(table, slugs[i]);
      if target != slugs[i] { modified := true; }
      if target in source {
        var raw := RawFor(codec, table, source, slugs[i]);
        outputBytes := outputBytes + |raw|;
        AppendRaw(output, raw);
        if |output| >= MAX_MODELS || outputBytes > MAX_BODY_BYTES {
          KeptOverflows(codec, table, source, slugs, i + 1);
          return None;
        }
        output := output + [raw];
      }
    }
    assert slugs[..|slugs|] == slugs;
    return Some((output, outputBytes, modified));
  }

  lemma NothingOutput(codec: Codec, table: map<string, string>, source: Source)
    ensures TotalBytes([]) == 0 && !Redirects(table, []) && KeptNames(table, source, []) == []
    ensures AddedNames(source, []) == [] && AllAvailable(table, source, []) && Output(codec, table, source, []) == []
  {
  }

  lemma AppendRaw(raws: seq<Bytes>, raw: Bytes)
    ensures TotalBytes(raws + [raw]) == TotalBytes(raws) + |raw|
  {
    assert (raws + [raw])[..|raws|] == raws;
  }

  lemma RedirectsExtend(table: map<string, string>, slugs: seq<string>, slug: string)
    ensures Redirects(table, slugs + [slug]) <==> Redirects(table, slugs) || TargetOf(table, slug) != slug
  {
    var more := slugs + [slug];
    if i :| 0 <= i < |slugs| && TargetOf(table, slugs[i]) != slugs[i] { assert TargetOf(table, more[i]) != more[i]; }
    assert more[|slugs|] == slug;
  }

  lemma KeepOne(codec: Codec, table: map<string, string>, source: Source, slugs: seq<string>, slug: string)
    requires AllAvailable(table, source, KeptNames(table, source, slugs))
    ensures AllAvailable(table, source, KeptNames(table, source, slugs + [slug]))
    ensures
      var names, more := KeptNames(table, source, slugs), KeptNames(table, source, slugs + [slug]);
      if TargetOf(table, slug) in source then
        more == names + [slug] &&
        Output(codec, table, source, more) == Output(codec, table, source, names) + [RawFor(codec, table, source, slug)]
      else more == names
  {
    hide RawFor;
    assert (slugs + [slug])[..|slugs|] == slugs;
  }

  /** A longer list of names fits only if the shorter one does. */
  lemma {:induction false} TotalGrows(raws: seq<Bytes>, n: nat)
    requires n <= |raws|
    ensures TotalBytes(raws[..n]) <= TotalBytes(raws)
  {
    if n == |raws| {
      assert raws[..n] == raws;
    } else {
      assert raws[..|raws| - 1][..n] == raws[..n];
      TotalGrows(raws[..|raws| - 1], n);
    }
  }

  lemma {:induction false} KeptPrefix(table: map<string, string>, source: Source, slugs: seq<string>, n: nat)
    requires n <= |slugs|
    ensures KeptNames(table, source, slugs[..n]) <= KeptNames(table, source, slugs)
  {
    if n == |slugs| {
      assert slugs[..n] == slugs;
    } else {
      assert slugs[..|slugs| - 1][..n] == slugs[..n];
      KeptPrefix(table, source, slugs[..|slugs| - 1], n);
    }
  }

  lemma PrefixFits(codec: Codec, table: map<string, string>, source: Source, names: seq<string>, more: seq<string>)
    requires names <= more && AllAvailable(table, source, more)
    ensures AllAvailable(table, source, names)
    ensures Fits(Output(codec, table, source, more)) ==> Fits(Output(codec, table, source, names))
  {
    hide RawFor, TotalBytes, TargetOf;
    assert forall i | 0 <= i < |names| :: names[i] == more[i];
    var raws := Output(codec, table, source, more);
    assert raws[..|names|] == Output(codec, table, source, names);
    TotalGrows(raws, |names|);
  }

  lemma KeptOverflows(codec: Codec, table: map<string, string>, source: Source, slugs: seq<string>, n: nat)
    requires n <= |slugs| && AllAvailable(table, source, KeptNames(table, source, slugs[..n]))
    requires !Fits(Output(codec, table, source, KeptNames(table, source, slugs[..n])))
    ensures AllAvailable(table, source, KeptNames(table, source, slugs))
    ensures !Fits(Output(codec, table, source, KeptNames(table, source, slugs)))
  {
    hide Fits, Output;
    var all := KeptNames(table, source, slugs);
    forall i | 0 <= i < |all| ensures TargetOf(table, all[i]) in source { assert all[i] in all; }
    KeptPrefix(table, source, slugs, n);
    PrefixFits(codec, table, source, KeptNames(table, source, slugs[..n]), all);
  }

  /** Adds the missing aliases to what is kept; the names written so far are the kept ones. */
  method AddModels(
    codec: Codec, table: map<string, string>, source: Source, aliases: seq<Alias>, ghost names: seq<string>,
    kept: seq<Bytes>, keptBytes: nat)
    returns (r: Option<(seq<Bytes>, bool)>)
    requires forall i | 0 <= i < |aliases| :: Maps(table, aliases[i].requested, aliases[i].upstream)
    requires AllAvailable(table, source, names) && kept == Output(codec, table, source, names)
    requires keptBytes == TotalBytes(kept) && Fits(kept)
    ensures AllAvailable(table, source, names + AddedNames(source, aliases))
    ensures
      var raws := Output(codec, table, source, names + AddedNames(source, aliases));
      r == if Fits(raws) then Some((raws, AddedNames(source, aliases) != [])) else None
  {
    hide RawFor, TotalBytes, AddedNames, Output, AllAvailable;
    var output, outputBytes, modified := kept, keptBytes, false;
    NothingOutput(codec, table, source);
    assert names + [] == names;
    for i := 0 to |aliases|
      invariant AllAvailable(table, source, names + AddedNames(source, aliases[..i]))
      invariant output == Output(codec, table, source, names + AddedNames(source, aliases[..i]))
      invariant outputBytes == TotalBytes(output) && Fits(output)
      invariant modified == (AddedNames(source, aliases[..i]) != [])
    {
      var alias := aliases[i];
      assert aliases[..i + 1] == aliases[..i] + [alias];
      AddOne(codec, table, source, names, aliases[..i], alias);
      if alias.requested in source { continue; }
      if alias.upstream in source {
        var raw := RawFor(codec, table, source, alias.requested);
        outputBytes := outputBytes + |raw|;
        AppendRaw(output, raw);
        if |output| >= MAX_MODELS || outputBytes > MAX_BODY_BYTES {
          AddedOverflows(codec, table, source, names, aliases, i + 1);
          return None;
        }
        output := output + [raw];
        modified := true;
      }
    }
    assert aliases[..|aliases|] == aliases;
    return Some((output, modified));
  }

  lemma AddOne(
    codec: Codec, table: map<string, string>, source: Source, names: seq<string>, aliases: seq<Alias>, alias: Alias)
    requires AllAvailable(table, source, names + AddedNames(source, aliases)) &&
      Maps(table, alias.requested, alias.upstream)
    ensures AllAvailable(table, source, names + AddedNames(source, aliases + [alias]))
    ensures AddedNames(source, aliases + [alias]) == [] <==>
      AddedNames(source, aliases) == [] && (alias.requested in source || alias.upstream !in source)
    ensures
      var before, more := names + AddedNames(source, aliases), names + AddedNames(source, aliases + [alias]);
      if alias.requested !in source && alias.upstream in source then
        more == before + [alias.requested] &&
        Output(codec, table, source, more) == Output(codec, table, source, before) +
          [RawFor(codec, table, source, alias.requested)]
      else more == before
  {
    hide RawFor;
    assert (aliases + [alias])[..|aliases|] == aliases;
    var before, more := names + AddedNames(source, aliases), names + AddedNames(source, aliases + [alias]);
    if alias.requested !in source && alias.upstream in source {
      assert more == before + [alias.requested];
    } else {
      assert more == before;
    }
  }

  lemma {:induction false} AddedPrefix(source: Source, aliases: seq<Alias>, n: nat)
    requires n <= |aliases|
    ensures AddedNames(source, aliases[..n]) <= AddedNames(source, aliases)
  {
    if n == |aliases| {
      assert aliases[..n] == aliases;
    } else {
      assert aliases[..|aliases| - 1][..n] == aliases[..n];
      AddedPrefix(source, aliases[..|aliases| - 1], n);
    }
  }

  lemma {:induction false} AddedAvailable(table: map<string, string>, source: Source, aliases: seq<Alias>)
    requires forall i | 0 <= i < |aliases| :: Maps(table, aliases[i].requested, aliases[i].upstream)
    ensures AllAvailable(table, source, AddedNames(source, aliases))
  {
    if aliases != [] {
      var n := |aliases| - 1;
      AddedAvailable(table, source, aliases[..n]);
      assert Maps(table, aliases[n].requested, aliases[n].upstream);
    }
  }

  lemma AddedOverflows(
    codec: Codec, table: map<string, string>, source: Source, names: seq<string>, aliases: seq<Alias>, n: nat)
    requires n <= |aliases| && AllAvailable(table, source, names)
    requires forall i | 0 <= i < |aliases| :: Maps(table, aliases[i].requested, aliases[i].upstream)
    requires AllAvailable(table, source, names + AddedNames(source, aliases[..n]))
    requires !Fits(Output(codec, table, source, names + AddedNames(source, aliases[..n])))
    ensures AllAvailable(table, source, names + AddedNames(source, aliases))
    ensures !Fits(Output(codec, table, source, names + AddedNames(source, aliases)))
  {
    hide Fits, Output, AddedNames;
    AddedAvailable(table, source, aliases);
    AddedPrefix(source, aliases, n);
    PrefixFits(codec, table, source, names + AddedNames(source, aliases[..n]), names + AddedNames(source, aliases));
  }

  // ---------- The whole transformation ----------

  lemma NamesAvailable(aliases: seq<Alias>, entries: seq<Entry>)
    requires UniqueAliases(aliases)
    ensures AllAvailable(AliasMap(aliases), SourceOf(entries), Names(aliases, entries))
  {
    hide AddedNames, SortAliases, SourceOf, AliasMap;
    var table, source := AliasMap(aliases), SourceOf(entries);
    var kept := KeptNames(table, source, Slugs(entries));
    forall i | 0 <= i < |kept| ensures TargetOf(table, kept[i]) in source { assert kept[i] in kept; }
    SortedMaps(aliases);
    AddedAvailable(table, source, SortAliases(aliases));
  }

  lemma SortedMaps(aliases: seq<Alias>)
    requires UniqueAliases(aliases)
    ensures forall i | 0 <= i < |SortAliases(aliases)| ::
      Maps(AliasMap(aliases), SortAliases(aliases)[i].requested, SortAliases(aliases)[i].upstream)
  {
    hide SortAliases, AliasMap;
    SameTable(aliases);
    var sorted := SortAliases(aliases);
    forall i | 0 <= i < |sorted| ensures Maps(AliasMap(aliases), sorted[i].requested, sorted[i].upstream) {
      assert sorted[i] in sorted;
      AliasMapHolds(aliases, sorted[i].requested, sorted[i].upstream);
    }
  }

  /** The bytes that the rewrite must return for a catalog that was read. */
  function Rewritten(codec: Codec, body: Bytes, entries: seq<Entry>, aliases: seq<Alias>): Option<Bytes>
    requires UniqueAliases(aliases)
  {
    NamesAvailable(aliases, entries);
    var raws := Output(codec, AliasMap(aliases), SourceOf(entries), Names(aliases, entries));
    if !Fits(raws) then None
    else if !Affected(aliases, entries) then Some(body)
    else
      var encoded := codec.encodeObject(codec.members(body)["models" := codec.encodeArray(raws)]);
      if |encoded| > MAX_BODY_BYTES then None else Some(encoded)
  }

  method Transform(codec: Codec, body: Bytes, aliases: seq<Alias>) returns (r: Option<Bytes>)
    requires UniqueAliases(aliases)
    ensures aliases == [] ==> r == Some(body)
    ensures aliases != [] ==>
      r == match ReadCatalog(codec, body)
           case None => None
           case Some((_, entries)) => Rewritten(codec, body, entries, aliases)
  {
    hide ReadEntries, SortAliases, AliasMap, SourceOf, Names, Affected, KeptNames, AddedNames, Output, Fits,
      AllAvailable, Redirects;
    if aliases == [] { return Some(body); }
    if body == [] || |body| > MAX_BODY_BYTES || !Utf8.Valid(body) { return None; }
    var root := codec.decode(body);
    if root.None? || !root.value.Object? || !codec.uniqueNames(body) { return None; }
    var models := Member(root.value.fields, "models");
    if !models.Array? || |models.items| > MAX_MODELS { return None; }
    var read := IndexModels(codec, RawModels(codec, body));
    if read.None? { return None; }
    ghost var entries := ReadEntries(codec, RawModels(codec, body)).value;
    r := RewriteModels(codec, body, entries, read.value.0, read.value.1, aliases);
  }

  method RewriteModels(
    codec: Codec, body: Bytes, ghost entries: seq<Entry>, slugs: seq<string>, source: Source, aliases: seq<Alias>)
    returns (r: Option<Bytes>)
    requires UniqueAliases(aliases) && slugs == Slugs(entries) && source == SourceOf(entries)
    ensures r == Rewritten(codec, body, entries, aliases)
  {
    hide SortAliases, AliasMap, SourceOf, KeptNames, AddedNames, Output, Fits, AllAvailable, Redirects;
    var sorted := SortAliases(aliases);
    var table := AliasMap(sorted);
    SameTable(aliases);
    SortedMaps(aliases);
    ListedInSource(entries);
    ghost var kept := KeptNames(table, source, slugs);
    var first := KeepModels(codec, table, source, slugs);
    if first.None? {
      KeptTooMuch(codec, aliases, entries);
      return None;
    }
    var all := AddModels(codec, table, source, sorted, kept, first.value.0, first.value.1);
    if all.None? { return None; }
    if !first.value.2 && !all.value.1 { return Some(body); }
    var encoded := codec.encodeObject(codec.members(body)["models" := codec.encodeArray(all.value.0)]);
    if |encoded| > MAX_BODY_BYTES { return None; }
    return Some(encoded);
  }

  lemma ListedInSource(entries: seq<Entry>)
    ensures forall i | 0 <= i < |entries| :: Slugs(entries)[i] in SourceOf(entries)
  {
    forall i | 0 <= i < |entries| ensures Slugs(entries)[i] in SourceOf(entries) {
      SourceKeys(entries, entries[i].slug);
    }
  }

  lemma KeptTooMuch(codec: Codec, aliases: seq<Alias>, entries: seq<Entry>)
    requires UniqueAliases(aliases)
    requires
      var kept := KeptNames(AliasMap(aliases), SourceOf(entries), Slugs(entries));
      AllAvailable(AliasMap(aliases), SourceOf(entries), kept) &&
        !Fits(Output(codec, AliasMap(aliases), SourceOf(entries), kept))
    ensures AllAvailable(AliasMap(aliases), SourceOf(entries), Names(aliases, entries))
    ensures !Fits(Output(codec, AliasMap(aliases), SourceOf(entries), Names(aliases, entries)))
  {
    hide KeptNames, AddedNames, Output, Fits, AllAvailable, AliasMap, SourceOf, SortAliases;
    NamesAvailable(aliases, entries);
    var table, source := AliasMap(aliases), SourceOf(entries);
    PrefixFits(codec, table, source, KeptNames(table, source, Slugs(entries)), Names(aliases, entries));
  }
}
