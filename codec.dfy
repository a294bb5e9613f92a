/** The description codec of the task API: a metadata block
    `<!--meta:{...}-->` is appended to the free text of a task's description
    (`appendMetadataToDescription`) and cut out of it again on every read
    (`parseTaskDescription`). `JSON.parse` and `JSON.stringify` are not part of
    this model: they are passed in as functions. */
module Codec {
  import opened Base
  import opened Text
  import opened JsonValue
  import opened Metadata

  const Prefix := "<!--meta:"
  const Suffix := "-->"

  /** `{ cleanDescription, metadata }` */
  datatype Decoded = Decoded(clean: string, metadata: Json)

  /** `JSON.parse(text)` inside `try`: a parse failure leaves `{}`. */
  function ParseOrEmpty(parse: string -> Option<Json>, text: string): (r: Json)
    ensures parse(text).None? ==> r == EmptyObject
    ensures parse(text).Some? ==> r == parse(text).value
  {
    match parse(text)
    case Some(j) => j
    case None => EmptyObject
  }

  /** `parseTaskDescription(description)` */
  function ParseTaskDescription(description: Option<string>, parse: string -> Option<Json>): (r: Decoded)
    ensures description.None? || description == Some("") ==> r == Decoded("", EmptyObject)
    ensures description.Some? && !Contains(description.value, Prefix) ==> r == Decoded(description.value, EmptyObject)
  {
    if description.None? || description.value == "" then Decoded("", EmptyObject)
    else
      var d := description.value;
      match LastIndexOf(d, Prefix)
      case None => Decoded(d, EmptyObject)
      case Some(p) =>
        var start := p + |Prefix|;
        match IndexOf(d, Suffix, start)
        case None => Decoded(d, EmptyObject)
        case Some(e) => Extract(d, p, e, parse)
  }

  /** The decoded form once the block `d[p..e + |Suffix|]` is found: the
      text around it, each side trimmed, joined by one space and trimmed
      again, and the parsed text between the markers. */
  function Extract(d: string, p: nat, e: nat, parse: string -> Option<Json>): (r: Decoded)
    requires p + |Prefix| <= e && e + |Suffix| <= |d|
    ensures Trimmed(r.clean)
  {
    Decoded(Trim(Trim(d[..p]) + " " + Trim(d[e + |Suffix|..])),
            ParseOrEmpty(parse, Trim(d[p + |Prefix|..e])))
  }

  /** `appendMetadataToDescription(description, metadata)` */
  function AppendMetadataToDescription(description: string, metadata: TaskMetadata, stringify: Json -> string): (r: string)
    ensures Occurs(r, Prefix, |Trim(description)| + 2)
  {
    var head := Trim(description) + "\n\n";
    var tail := stringify(ToJson(metadata)) + Suffix;
    PrefixBetween(head, tail);
    head + Prefix + tail
  }

  lemma PrefixBetween(head: string, tail: string)
    ensures Occurs(head + Prefix + tail, Prefix, |head|)
  {
    assert (head + Prefix + tail)[|head|..|head| + |Prefix|] == Prefix;
  }

  /** A marker occurrence cannot start inside the prefix marker itself: its
      first character occurs nowhere else in it. */
  lemma PrefixNotSelfOverlapping(d: string, at: nat, j: int)
    requires Occurs(d, Prefix, at) && at < j < at + |Prefix|
    ensures !Occurs(d, Prefix, j)
  {
    assert d[j] == Prefix[j - at];
  }

  /** The prefix marker at `p` is the last one when none occurs in the text after it. */
  lemma LastPrefixAt(d: string, p: nat, tail: string)
    requires Occurs(d, Prefix, p)
    requires d[p + |Prefix|..] == tail && !Contains(tail, Prefix)
    ensures LastIndexOf(d, Prefix) == Some(p)
  {
    var start := p + |Prefix|;
    forall j | p < j
      ensures !Occurs(d, Prefix, j)
    {
      if j < start {
        PrefixNotSelfOverlapping(d, p, j);
      } else if j + |Prefix| <= |d| {
        assert tail[j - start..j - start + |Prefix|] == d[j..j + |Prefix|];
        assert !Occurs(tail, Prefix, j - start);
      }
    }
  }

  /** The suffix marker right after `b` is the first one from `start` on when
      `b` holds none: an occurrence reaching into the marker would need its
      `>` one or two places early, where the marker has `-`. */
  lemma FirstSuffixAfter(d: string, start: nat, b: string)
    requires start + |b| + |Suffix| <= |d|
    requires d[start..start + |b| + |Suffix|] == b + Suffix
    requires !Contains(b, Suffix)
    ensures IndexOf(d, Suffix, start) == Some(start + |b|)
  {
    var e := start + |b|;
    var block := d[start..e + |Suffix|];
    SliceOfSlice(d, start, e + |Suffix|, |b|, |b| + |Suffix|);
    assert block[|b|..|b| + |Suffix|] == Suffix;
    assert Occurs(d, Suffix, e);
    forall j | start <= j < e
      ensures !Occurs(d, Suffix, j)
    {
      var k := j - start;
      if j + |Suffix| <= e {
        SliceOfSlice(d, start, e + |Suffix|, k, k + |Suffix|);
        assert block[k..k + |Suffix|] == b[k..k + |Suffix|];
        assert !Occurs(b, Suffix, k);
      } else {
        assert d[j + 2] == block[k + 2] == Suffix[k + 2 - |b|] == '-';
        assert d[j..j + |Suffix|][2] == d[j + 2] != Suffix[2];
      }
    }
  }

  /** Decoding once the last prefix marker (at `p`) and the first suffix
      marker after it (at `e`) are known. */
  lemma DecodeAt(d: string, p: nat, e: nat, parse: string -> Option<Json>)
    requires LastIndexOf(d, Prefix) == Some(p)
    requires IndexOf(d, Suffix, p + |Prefix|) == Some(e)
    ensures p + |Prefix| <= e && e + |Suffix| <= |d|
    ensures ParseTaskDescription(Some(d), parse) == Extract(d, p, e, parse)
  {
  }

  /** Where the pieces of `a + Prefix + (b + Suffix + c)` lie. */
  lemma PiecesAt(a: string, b: string, c: string, d: string, start: nat, e: nat)
    requires d == a + Prefix + (b + Suffix + c)
    requires start == |a| + |Prefix| && e == start + |b|
    ensures Occurs(d, Prefix, |a|)
    ensures d[..|a|] == a
    ensures d[start..] == b + Suffix + c
    ensures d[start..e + |Suffix|] == b + Suffix
    ensures d[start..e] == b
    ensures d[e + |Suffix|..] == c
  {
    assert d == a + (Prefix + (b + (Suffix + c)));
    assert d[|a|..] == Prefix + (b + (Suffix + c));
    assert d[start..] == b + (Suffix + c);
    assert d[e..] == Suffix + c;
  }

  /** Decoding a description that holds a block: the text before the LAST
      prefix marker and after the FIRST suffix marker that follows it, each
      trimmed, joined by one space and trimmed again; the metadata is what
      lies between, trimmed and parsed. */
  lemma DecodeSplits(a: string, b: string, c: string, parse: string -> Option<Json>)
    requires !Contains(b + Suffix + c, Prefix)
    requires !Contains(b, Suffix)
    ensures ParseTaskDescription(Some(a + Prefix + (b + Suffix + c)), parse)
            == Decoded(Trim(Trim(a) + " " + Trim(c)), ParseOrEmpty(parse, Trim(b)))
  {
    var d := a + Prefix + (b + Suffix + c);
    var start := |a| + |Prefix|;
    var e := start + |b|;
    PiecesAt(a, b, c, d, start, e);
    LastPrefixAt(d, |a|, b + Suffix + c);
    FirstSuffixAfter(d, start, b);
    DecodeAt(d, |a|, e, parse);
  }

  /** No suffix marker from `start` on when the text there holds none. */
  lemma NoSuffixFrom(d: string, start: nat, b: string)
    requires start <= |d| && d[start..] == b && !Contains(b, Suffix)
    ensures IndexOf(d, Suffix, start).None?
  {
    forall j | start <= j
      ensures !Occurs(d, Suffix, j)
    {
      if j + |Suffix| <= |d| {
        assert b[j - start..j - start + |Suffix|] == d[j..j + |Suffix|];
        assert !Occurs(b, Suffix, j - start);
      }
    }
  }

  /** An unterminated block is not a block: when no suffix marker follows the
      last prefix marker, the description is returned whole with `{}`. */
  lemma UnterminatedBlock(a: string, b: string, parse: string -> Option<Json>)
    requires !Contains(b, Prefix) && !Contains(b, Suffix)
    ensures ParseTaskDescription(Some(a + Prefix + b), parse) == Decoded(a + Prefix + b, EmptyObject)
  {
    var d := a + Prefix + b;
    var start := |a| + |Prefix|;
    assert d == a + (Prefix + b);
    assert d[|a|..] == Prefix + b;
    assert Occurs(d, Prefix, |a|) && d[start..] == b;
    LastPrefixAt(d, |a|, b);
    NoSuffixFrom(d, start, b);
  }

  /** The appended block's text is followed only by the suffix marker, so a
      prefix marker free text stays prefix-free with the suffix attached. */
  lemma NoPrefixAcrossSuffix(s: string)
    requires !Contains(s, Prefix)
    ensures !Contains(s + Suffix, Prefix)
  {
    var x := s + Suffix;
    forall j | 0 <= j <= |x| - |Prefix|
      ensures !Occurs(x, Prefix, j)
    {
      if j + |Prefix| <= |s| {
        assert s[j..j + |Prefix|] == x[j..j + |Prefix|];
        assert !Occurs(s, Prefix, j);
      } else {
        assert x[j + 8] == Suffix[j + 8 - |s|] != Prefix[8];
      }
    }
  }

  /** The clean text of an encoded description: the block is at the very
      end, so joining what precedes it with the empty rest gives the trimmed
      text back. */
  lemma JoinBeforeBlock(text: string)
    ensures Trim(Trim(Trim(text) + "\n\n") + " " + Trim([])) == Trim(text)
  {
    JoinWhiteTail(Trim(text), "\n\n");
  }

  lemma JoinWhiteTail(x: string, w: string)
    requires Trimmed(x) && AllWhite(w)
    ensures Trim(Trim(x + w) + " " + Trim([])) == x
  {
    var y := Trim(x + w);
    TrimWhiteTail(x, w);
    assert y == x;
    JoinEmpty(y);
  }

  lemma JoinEmpty(x: string)
    requires Trimmed(x)
    ensures Trim(x + " " + Trim([])) == x
  {
    AppendTrimEmpty(x + " ");
    TrimWhiteTail(x, " ");
  }

  lemma AppendTrimEmpty(y: string)
    ensures Trim(y + Trim([])) == Trim(y)
  {
    TrimEmpty();
    assert y + [] == y;
  }

  /** Round trip: decoding an encoded description gives back the trimmed text
      and the metadata, for ANY text, whenever the serializer's output holds
      neither marker and the parser reads it back. */
  lemma RoundTrip(text: string, metadata: TaskMetadata, stringify: Json -> string, parse: string -> Option<Json>)
    requires !Contains(stringify(ToJson(metadata)), Prefix)
    requires !Contains(stringify(ToJson(metadata)), Suffix)
    requires parse(Trim(stringify(ToJson(metadata)))) == Some(ToJson(metadata))
    ensures ParseTaskDescription(Some(AppendMetadataToDescription(text, metadata, stringify)), parse)
            == Decoded(Trim(text), ToJson(metadata))
  {
    var ser := stringify(ToJson(metadata));
    var a := Trim(text) + "\n\n";
    assert AppendMetadataToDescription(text, metadata, stringify) == a + Prefix + (ser + Suffix + []) by {
      assert ser + Suffix + [] == ser + Suffix;
    }
    assert !Contains(ser + Suffix + [], Prefix) by {
      NoPrefixAcrossSuffix(ser);
      assert ser + Suffix + [] == ser + Suffix;
    }
    DecodeSplits(a, ser, [], parse);
    assert ParseOrEmpty(parse, Trim(ser)) == ToJson(metadata);
    JoinBeforeBlock(text);
  }

  /** What a later read hands to the board: sanitizing the decoded block
      gives back exactly the metadata that was written. */
  lemma RoundTripMetadata(text: string, metadata: TaskMetadata, stringify: Json -> string, parse: string -> Option<Json>)
    requires !Contains(stringify(ToJson(metadata)), Prefix)
    requires !Contains(stringify(ToJson(metadata)), Suffix)
    requires parse(Trim(stringify(ToJson(metadata)))) == Some(ToJson(metadata))
    ensures Sanitize(Some(ParseTaskDescription(Some(AppendMetadataToDescription(text, metadata, stringify)), parse).metadata))
            == metadata
  {
    RoundTrip(text, metadata, stringify, parse);
    SanitizeToJson(metadata);
  }
}
