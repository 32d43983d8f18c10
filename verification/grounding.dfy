/** The citation sources taken from the model response's grounding metadata
    (hooks/useFinancialDataExtractor.ts). Each grounding chunk is mapped to a
    source when its web entry has a non-empty URI and a non-empty title, and
    to `null` otherwise; the `null`s are then filtered out. */
module Grounding {
  import opened Outcomes
  import Types

  datatype ChunkWeb = ChunkWeb(uri: Option<string>, title: Option<string>)

  datatype Chunk = Chunk(web: Option<ChunkWeb>)

  datatype GroundingMetadata = GroundingMetadata(groundingChunks: Option<seq<Chunk>>)

  /** `chunk.web && chunk.web.uri && chunk.web.title`: both strings present
      and non-empty. */
  predicate Citable(c: Chunk) {
    && c.web.Some?
    && c.web.value.uri.Some? && c.web.value.uri.value != ""
    && c.web.value.title.Some? && c.web.value.title.value != ""
  }

  function SourceOf(c: Chunk): (s: Types.GroundingSource)
    requires Citable(c)
    ensures s.web.Some? && s.web.value.uri == c.web.value.uri.value && s.web.value.title == c.web.value.title.value
  {
    Types.GroundingSource(Some(Types.WebSource(c.web.value.uri.value, c.web.value.title.value)))
  }

  /** A source that can be shown as a link: a web entry with a URI and a title. */
  predicate Shown(s: Types.GroundingSource) {
    s.web.Some? && s.web.value.uri != "" && s.web.value.title != ""
  }

  /** The `map` step: one entry per chunk, `None` standing for `null`. */
  function MapChunks(chunks: seq<Chunk>): (r: seq<Option<Types.GroundingSource>>)
    ensures |r| == |chunks|
    ensures forall i :: 0 <= i < |chunks| ==> r[i] == if Citable(chunks[i]) then Some(SourceOf(chunks[i])) else None
  {
    if chunks == [] then []
    else [if Citable(chunks[0]) then Some(SourceOf(chunks[0])) else None] + MapChunks(chunks[1..])
  }

  /** The `filter((s) => s !== null)` step. */
  function DropNulls(xs: seq<Option<Types.GroundingSource>>): (r: seq<Types.GroundingSource>)
    ensures |r| <= |xs|
    ensures forall s :: s in r <==> Some(s) in xs
  {
    if xs == [] then []
    else if xs[0].None? then DropNulls(xs[1..])
    else [xs[0].value] + DropNulls(xs[1..])
  }

  /** The filter keeps order: the entries of a longer list come after those
      of its first part. */
  lemma {:induction false} DropNullsAppend(a: seq<Option<Types.GroundingSource>>, b: seq<Option<Types.GroundingSource>>)
    ensures DropNulls(a + b) == DropNulls(a) + DropNulls(b)
    decreases |a|
  {
    if a == [] {
      assert a + b == b;
    } else {
      assert (a + b)[1..] == a[1..] + b;
      DropNullsAppend(a[1..], b);
    }
  }

  /** The sources as the extractor computes them, in chunk order. */
  function ExtractSources(chunks: seq<Chunk>): (r: seq<Types.GroundingSource>)
    ensures |r| <= |chunks|
  {
    DropNulls(MapChunks(chunks))
  }

  /** `groundingMetadata?.groundingChunks`: no metadata, or metadata without a
      chunk list, gives no sources. */
  function SourcesFrom(metadata: Option<GroundingMetadata>): (r: seq<Types.GroundingSource>)
    ensures metadata.None? || metadata.value.groundingChunks.None? ==> r == []
    ensures metadata.Some? && metadata.value.groundingChunks.Some? ==> r == Keep(metadata.value.groundingChunks.value)
  {
    if metadata.Some? && metadata.value.groundingChunks.Some? then
      KeepIsExtract(metadata.value.groundingChunks.value);
      ExtractSources(metadata.value.groundingChunks.value)
    else []
  }

  /** Reference definition: keep the citable chunks, converting each. */
  function Keep(chunks: seq<Chunk>): seq<Types.GroundingSource> {
    if chunks == [] then []
    else if Citable(chunks[0]) then [SourceOf(chunks[0])] + Keep(chunks[1..])
    else Keep(chunks[1..])
  }

  /** Mapping to `null` and filtering the `null`s out is the same as keeping
      the citable chunks. */
  lemma {:induction false} KeepIsExtract(chunks: seq<Chunk>)
    ensures ExtractSources(chunks) == Keep(chunks)
    decreases |chunks|
  {
    if chunks != [] {
      var m := MapChunks(chunks);
      assert m[1..] == MapChunks(chunks[1..]);
      KeepIsExtract(chunks[1..]);
    }
  }

  /** Extraction distributes over concatenation: the sources of a longer
      chunk list keep the order of the chunks. */
  lemma {:induction false} KeepAppend(a: seq<Chunk>, b: seq<Chunk>)
    ensures Keep(a + b) == Keep(a) + Keep(b)
    decreases |a|
  {
    if a == [] {
      assert a + b == b;
    } else {
      assert (a + b)[1..] == a[1..] + b;
      KeepAppend(a[1..], b);
    }
  }

  /** Every extracted source is shown with a URI and a title. */
  lemma {:induction false} KeepShown(chunks: seq<Chunk>)
    ensures forall s :: s in Keep(chunks) ==> Shown(s)
    decreases |chunks|
  {
    if chunks != [] {
      KeepShown(chunks[1..]);
    }
  }

  /** A source is extracted exactly when some citable chunk yields it. */
  lemma {:induction false} KeepMembers(chunks: seq<Chunk>, s: Types.GroundingSource)
    ensures s in Keep(chunks) <==> exists i :: 0 <= i < |chunks| && Citable(chunks[i]) && SourceOf(chunks[i]) == s
    decreases |chunks|
  {
    if chunks != [] {
      KeepMembers(chunks[1..], s);
      if s in Keep(chunks[1..]) {
        var i :| 0 <= i < |chunks[1..]| && Citable(chunks[1..][i]) && SourceOf(chunks[1..][i]) == s;
        assert chunks[i + 1] == chunks[1..][i];
      }
      if exists i :: 0 <= i < |chunks| && Citable(chunks[i]) && SourceOf(chunks[i]) == s {
        var i :| 0 <= i < |chunks| && Citable(chunks[i]) && SourceOf(chunks[i]) == s;
        if i > 0 {
          assert chunks[1..][i - 1] == chunks[i];
        }
      }
    }
  }

  /** The number of sources is the number of citable chunks. */
  function CountCitable(chunks: seq<Chunk>): nat {
    if chunks == [] then 0 else (if Citable(chunks[0]) then 1 else 0) + CountCitable(chunks[1..])
  }

  lemma {:induction false} KeepLength(chunks: seq<Chunk>)
    ensures |Keep(chunks)| == CountCitable(chunks)
    decreases |chunks|
  {
    if chunks != [] {
      KeepLength(chunks[1..]);
    }
  }
}
