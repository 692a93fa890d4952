/** Searching streamed agent text for a marker with a bounded tail. */
module MarkerSearch {
  import opened Utf8

  const TAIL_LIMIT := 64

  ghost predicate OccursAt(text: Bytes, marker: Bytes, i: int) {
    0 <= i <= |text| - |marker| && text[i..i + |marker|] == marker
  }

  ghost predicate Occurs(text: Bytes, marker: Bytes) {
    exists i :: OccursAt(text, marker, i)
  }

  /** strings.Contains, by trying every position. */
  method Contains(text: Bytes, marker: Bytes) returns (found: bool)
    ensures found <==> Occurs(text, marker)
  {
    var i := 0;
    while i + |marker| <= |text|
      invariant forall j | 0 <= j < i :: !OccursAt(text, marker, j)
    {
      if text[i..i + |marker|] == marker {
        assert OccursAt(text, marker, i);
        return true;
      }
      i := i + 1;
    }
    return false;
  }

  function LastBytes(text: Bytes): Bytes {
    if |text| > TAIL_LIMIT then text[|text| - TAIL_LIMIT..] else text
  }

  function Concat(chunks: seq<Bytes>): Bytes {
    if chunks == [] then [] else Concat(chunks[..|chunks| - 1]) + chunks[|chunks| - 1]
  }

  /** Whether some chunk, behind the tail of the text before it, held the marker. */
  ghost predicate Seen(marker: Bytes, chunks: seq<Bytes>) {
    chunks != [] &&
    (|| Seen(marker, chunks[..|chunks| - 1])
     || (marker != [] && Occurs(LastBytes(Concat(chunks[..|chunks| - 1])) + chunks[|chunks| - 1], marker)))
  }

  class AgentRun {
    const marker: Bytes
    var markerSeen: bool
    var markerTail: Bytes
    ghost var observed: seq<Bytes>

    ghost predicate Valid()
      reads this
    {
      markerTail == LastBytes(Concat(observed)) && (markerSeen <==> Seen(marker, observed))
    }

    constructor (marker: Bytes)
      ensures Valid() && observed == [] && this.marker == marker
    {
      this.marker, markerSeen, markerTail, observed := marker, false, [], [];
    }

    method ObserveTrustedText(text: Bytes)
      requires Valid()
      modifies this
      ensures Valid() && observed == old(observed) + [text]
      ensures 0 < |marker| <= 65 ==> (markerSeen <==> Occurs(Concat(observed), marker))
      ensures markerSeen ==> Occurs(Concat(observed), marker)
    {
      hide Occurs, Seen, Concat;
      var candidate := markerTail + text;
      if marker != [] {
        var found := Contains(candidate, marker);
        if found { markerSeen := true; }
      }
      TailKept(Concat(observed), text);
      ChunkAdded(marker, observed, text);
      observed := observed + [text];
      if |candidate| > TAIL_LIMIT { candidate := candidate[|candidate| - TAIL_LIMIT..]; }
      markerTail := candidate;
      SearchExact(marker, observed);
    }
  }

  lemma ChunkAdded(marker: Bytes, chunks: seq<Bytes>, text: Bytes)
    ensures Concat(chunks + [text]) == Concat(chunks) + text
    ensures Seen(marker, chunks + [text]) <==>
      Seen(marker, chunks) || (marker != [] && Occurs(LastBytes(Concat(chunks)) + text, marker))
  {
    hide Occurs;
    assert (chunks + [text])[..|chunks|] == chunks;
  }

  /** The tail of the tail and the new text is the tail of everything. */
  lemma TailKept(whole: Bytes, text: Bytes)
    ensures LastBytes(LastBytes(whole) + text) == LastBytes(whole + text)
  {
    if |whole| > TAIL_LIMIT {
      assert whole == whole[..|whole| - TAIL_LIMIT] + LastBytes(whole);
      assert whole + text == whole[..|whole| - TAIL_LIMIT] + (LastBytes(whole) + text);
    }
  }

  /** An occurrence lies in the old text, or in its tail with the new text. */
  lemma OccursSplit(whole: Bytes, text: Bytes, marker: Bytes)
    requires 0 < |marker| <= 65
    ensures Occurs(whole + text, marker) ==> Occurs(whole, marker) || Occurs(LastBytes(whole) + text, marker)
  {
    if i :| OccursAt(whole + text, marker, i) {
      if i + |marker| <= |whole| {
        assert (whole + text)[i..i + |marker|] == whole[i..i + |marker|];
        assert OccursAt(whole, marker, i);
      } else {
        var cut := |whole| - |LastBytes(whole)|;
        assert whole + text == whole[..cut] + (LastBytes(whole) + text);
        assert (LastBytes(whole) + text)[i - cut..i - cut + |marker|] == (whole + text)[i..i + |marker|];
        assert OccursAt(LastBytes(whole) + text, marker, i - cut);
      }
    }
  }

  /** What is found in the tail or earlier is in the whole text. */
  lemma OccursJoin(whole: Bytes, text: Bytes, marker: Bytes)
    ensures Occurs(whole, marker) || Occurs(LastBytes(whole) + text, marker) ==> Occurs(whole + text, marker)
  {
    if i :| OccursAt(whole, marker, i) {
      assert (whole + text)[i..i + |marker|] == whole[i..i + |marker|];
      assert OccursAt(whole + text, marker, i);
    } else if i :| OccursAt(LastBytes(whole) + text, marker, i) {
      var cut := |whole| - |LastBytes(whole)|;
      assert whole + text == whole[..cut] + (LastBytes(whole) + text);
      assert (whole + text)[i + cut..i + cut + |marker|] == (LastBytes(whole) + text)[i..i + |marker|];
      assert OccursAt(whole + text, marker, i + cut);
    }
  }

  /** A marker that is seen does occur; one of at most 65 bytes is seen whenever it occurs, however the text is cut. */
  lemma {:induction false} SearchExact(marker: Bytes, chunks: seq<Bytes>)
    ensures Seen(marker, chunks) ==> Occurs(Concat(chunks), marker)
    ensures 0 < |marker| <= 65 && Occurs(Concat(chunks), marker) ==> Seen(marker, chunks)
  {
    hide Occurs;
    if chunks == [] {
      NothingOccurs(marker);
    } else {
      var n := |chunks| - 1;
      SearchExact(marker, chunks[..n]);
      OccursJoin(Concat(chunks[..n]), chunks[n], marker);
      if 0 < |marker| <= 65 { OccursSplit(Concat(chunks[..n]), chunks[n], marker); }
    }
  }

  lemma NothingOccurs(marker: Bytes)
    ensures Occurs([], marker) ==> marker == []
  {
  }

  ghost predicate FoundHowever(marker: Bytes, chunks: seq<Bytes>) {
    Seen(marker, chunks) <==> Occurs(Concat(chunks), marker)
  }

  /** Streaming search equals whole-text search for every splitting exactly when the marker has 1 to 65 bytes: a
      longer one is missed when it is cut after its first 65 bytes, and the empty one is never looked for. */
  lemma SearchCondition(marker: Bytes)
    ensures (forall chunks :: FoundHowever(marker, chunks)) <==> 0 < |marker| <= 65
  {
    hide Occurs, Seen;
    if 0 < |marker| <= 65 {
      forall chunks ensures FoundHowever(marker, chunks) { SearchExact(marker, chunks); }
    } else if marker == [] {
      EmptyMissed();
      assert !FoundHowever(marker, []);
    } else {
      LongMissed(marker);
      assert !FoundHowever(marker, [marker[..65], marker[65..]]);
    }
  }

  lemma EmptyMissed()
    ensures !Seen([], []) && Occurs(Concat([]), [])
  {
    assert OccursAt([], [], 0);
  }

  lemma LongMissed(marker: Bytes)
    requires |marker| > 65
    ensures
      var chunks := [marker[..65], marker[65..]];
      !Seen(marker, chunks) && Occurs(Concat(chunks), marker)
  {
    var first, second := marker[..65], marker[65..];
    var chunks := [first, second];
    assert chunks[..1] == [first] && [first][..0] == [];
    assert Concat([first]) == [] + first && [] + first == first;
    assert Concat(chunks) == first + second && first + second == marker;
    assert OccursAt(marker, marker, 0);
    assert !Seen(marker, []);
    assert |LastBytes([]) + first| < |marker|;
    assert !Seen(marker, [first]);
    assert |LastBytes(first) + second| < |marker|;
  }
}
