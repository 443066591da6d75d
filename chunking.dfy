/**
 * The paragraph chunker of `EmbeddingEngine.chunk_text` (src/embeddings.py).
 *
 * The text is split on blank lines into paragraphs, and the paragraphs are packed
 * greedily into a buffer. When the next paragraph would push the buffer's total
 * length past `chunkSize`, the buffer is joined and emitted as a chunk, and a new
 * buffer starts: empty, or, when `overlap > 0` and the closed buffer was not empty,
 * holding the closed buffer's last paragraph. The last buffer is emitted at the end.
 *
 * `Pack` is the loop as a function over the paragraphs consumed so far; `ChunkText`
 * is the loop itself and is proved to compute `Chunks`. The lemmas state what the
 * groups of paragraphs behind the chunks look like.
 */
module Chunking {
  import opened PyStr

  /** The separator that splits the text into paragraphs and joins a chunk's paragraphs. */
  const ParagraphBreak: string := "\n\n"

  /** Total number of characters in a list of paragraphs, not counting separators. */
  function SumLen(ps: seq<string>): nat
  {
    if ps == [] then 0 else SumLen(ps[..|ps| - 1]) + |Last(ps)|
  }

  /** All paragraphs of all groups, in order. */
  function Flatten(gs: seq<seq<string>>): seq<string>
  {
    if gs == [] then [] else Flatten(gs[..|gs| - 1]) + Last(gs)
  }

  /**
   * All paragraphs of all groups, in order, where a group that follows a non-empty
   * group loses its first paragraph when `overlap > 0` (that paragraph is the copy
   * carried over from the group before).
   */
  function Deduplicated(gs: seq<seq<string>>, overlap: int): seq<string>
  {
    if gs == [] then []
    else if |gs| == 1 then gs[0]
    else
      var init, g := gs[..|gs| - 1], Last(gs);
      Deduplicated(init, overlap) + (if overlap > 0 && Last(init) != [] && g != [] then g[1..] else g)
  }

  /** The loop state: the groups already closed, and the buffer (`current_chunk`). */
  datatype Packing = Packing(closed: seq<seq<string>>, buffer: seq<string>)

  /** One iteration of the loop over paragraphs. */
  function Step(st: Packing, p: string, chunkSize: int, overlap: int): Packing
  {
    if SumLen(st.buffer) + |p| > chunkSize then
      var seed := if overlap > 0 && |st.buffer| > 0 then [Last(st.buffer)] else [];
      Packing(st.closed + [st.buffer], seed + [p])
    else
      Packing(st.closed, st.buffer + [p])
  }

  /** The loop state once the paragraphs `ps` have been consumed. */
  function Pack(ps: seq<string>, chunkSize: int, overlap: int): Packing
  {
    if ps == [] then Packing([], [])
    else Step(Pack(ps[..|ps| - 1], chunkSize, overlap), Last(ps), chunkSize, overlap)
  }

  /** The paragraphs of `text`, `text.split('\n\n')`. */
  function Paragraphs(text: string): (ps: seq<string>)
    ensures ps != []
  {
    Split(text, ParagraphBreak)
  }

  /** The paragraph groups behind the emitted chunks: the closed groups, then the last buffer if it is not empty. */
  function Groups(text: string, chunkSize: int, overlap: int): seq<seq<string>>
  {
    var st := Pack(Paragraphs(text), chunkSize, overlap);
    if st.buffer != [] then st.closed + [st.buffer] else st.closed
  }

  /** Each group joined with the paragraph separator. */
  function JoinGroups(gs: seq<seq<string>>): (cs: seq<string>)
    ensures |cs| == |gs|
    ensures forall i :: 0 <= i < |gs| ==> cs[i] == Join(gs[i], ParagraphBreak)
  {
    seq(|gs|, i requires 0 <= i < |gs| => Join(gs[i], ParagraphBreak))
  }

  /** The list `chunk_text(text, chunkSize, overlap)` returns. */
  function Chunks(text: string, chunkSize: int, overlap: int): seq<string>
  {
    JoinGroups(Groups(text, chunkSize, overlap))
  }

  /** `chunk_text`: the loop over paragraphs, keeping `currentSize` equal to the buffer's total length. */
  method ChunkText(text: string, chunkSize: int, overlap: int) returns (chunks: seq<string>)
    ensures chunks == Chunks(text, chunkSize, overlap)
  {
    chunks := [];
    var paragraphs := Split(text, ParagraphBreak);
    var current: seq<string> := [];
    var currentSize: int := 0;
    ghost var closed: seq<seq<string>> := [];
    for i := 0 to |paragraphs|
      invariant Pack(paragraphs[..i], chunkSize, overlap) == Packing(closed, current)
      invariant chunks == JoinGroups(closed)
      invariant currentSize == SumLen(current)
    {
      var paragraph := paragraphs[i];
      var paragraphSize := |paragraph|;
      assert paragraphs[..i + 1] == paragraphs[..i] + [paragraph];
      PackSnoc(paragraphs[..i], paragraph, chunkSize, overlap);
      if currentSize + paragraphSize > chunkSize {
        JoinGroupsSnoc(closed, current);
        chunks := chunks + [Join(current, ParagraphBreak)];
        closed := closed + [current];
        if overlap > 0 && |current| > 0 {
          current := [Last(current)];
          currentSize := |Last(current)|;
          assert SumLen(current) == SumLen([]) + |Last(current)|;
        } else {
          current := [];
          currentSize := 0;
        }
      }
      SumLenSnoc(current, paragraph);
      current := current + [paragraph];
      currentSize := currentSize + paragraphSize;
    }
    assert paragraphs[..|paragraphs|] == paragraphs;
    if current != [] {
      JoinGroupsSnoc(closed, current);
      chunks := chunks + [Join(current, ParagraphBreak)];
    }
  }

  /** Joining one more group adds its joined text at the end. */
  lemma JoinGroupsSnoc(gs: seq<seq<string>>, g: seq<string>)
    ensures JoinGroups(gs + [g]) == JoinGroups(gs) + [Join(g, ParagraphBreak)]
  {
  }

  // ---------------------------------------------------------------------------
  // Facts about the loop state

  /** `Pack` unfolds on its last paragraph. */
  lemma PackSnoc(ps: seq<string>, p: string, chunkSize: int, overlap: int)
    ensures Pack(ps + [p], chunkSize, overlap) == Step(Pack(ps, chunkSize, overlap), p, chunkSize, overlap)
  {
    assert (ps + [p])[..|ps|] == ps;
  }

  /** The groups after one more step: a new group opened after the old buffer, or the paragraph added to the buffer. */
  lemma StepGroups(st: Packing, p: string, chunkSize: int, overlap: int)
    ensures var st' := Step(st, p, chunkSize, overlap);
      st'.closed + [st'.buffer] ==
        if SumLen(st.buffer) + |p| > chunkSize
        then st.closed + [st.buffer] + [(if overlap > 0 && |st.buffer| > 0 then [Last(st.buffer)] else []) + [p]]
        else st.closed + [st.buffer + [p]]
  {
  }

  /** Once a paragraph has been consumed the buffer is never empty, and it ends with that paragraph. */
  lemma PackBuffer(ps: seq<string>, chunkSize: int, overlap: int)
    requires ps != []
    ensures Pack(ps, chunkSize, overlap).buffer != []
    ensures Last(Pack(ps, chunkSize, overlap).buffer) == Last(ps)
  {
    var st := Pack(ps[..|ps| - 1], chunkSize, overlap);
    var st' := Step(st, Last(ps), chunkSize, overlap);
    assert Pack(ps, chunkSize, overlap) == st';
    assert st'.buffer == (if SumLen(st.buffer) + |Last(ps)| > chunkSize
      then (if overlap > 0 && |st.buffer| > 0 then [Last(st.buffer)] else []) else st.buffer) + [Last(ps)];
  }

  /** `Deduplicated` unfolds on its last group. */
  lemma DeduplicatedSnoc(gs: seq<seq<string>>, g: seq<string>, overlap: int)
    requires gs != []
    ensures Deduplicated(gs + [g], overlap)
      == Deduplicated(gs, overlap) + (if overlap > 0 && Last(gs) != [] && g != [] then g[1..] else g)
  {
    assert (gs + [g])[..|gs|] == gs;
  }

  /** Closed groups followed by the buffer give back the consumed paragraphs once the overlap copies are dropped. */
  lemma {:induction false} PackDeduplicated(ps: seq<string>, chunkSize: int, overlap: int)
    ensures var st := Pack(ps, chunkSize, overlap); Deduplicated(st.closed + [st.buffer], overlap) == ps
    decreases |ps|
  {
    if ps != [] {
      var init, p := ps[..|ps| - 1], Last(ps);
      assert ps == init + [p];
      PackDeduplicated(init, chunkSize, overlap);
      if init != [] {
        PackBuffer(init, chunkSize, overlap);
      }
      StepDeduplicated(Pack(init, chunkSize, overlap), p, chunkSize, overlap);
    }
  }

  /** One step adds exactly its paragraph to the deduplicated groups, provided the buffer is non-empty once a group is closed. */
  lemma StepDeduplicated(st: Packing, p: string, chunkSize: int, overlap: int)
    requires st.closed != [] ==> st.buffer != []
    ensures var st' := Step(st, p, chunkSize, overlap);
      Deduplicated(st'.closed + [st'.buffer], overlap) == Deduplicated(st.closed + [st.buffer], overlap) + [p]
  {
    StepGroups(st, p, chunkSize, overlap);
    var L := st.closed + [st.buffer];
    if SumLen(st.buffer) + |p| > chunkSize {
      var seed := if overlap > 0 && |st.buffer| > 0 then [Last(st.buffer)] else [];
      DeduplicatedSnoc(L, seed + [p], overlap);
      assert Last(L) == st.buffer;
      if overlap > 0 && st.buffer != [] {
        assert (seed + [p])[1..] == [p];
      } else {
        assert seed + [p] == [p];
      }
    } else if st.closed == [] {
      assert Deduplicated([st.buffer + [p]], overlap) == Deduplicated([st.buffer], overlap) + [p];
    } else {
      DeduplicatedSnoc(st.closed, st.buffer, overlap);
      DeduplicatedSnoc(st.closed, st.buffer + [p], overlap);
      assert (st.buffer + [p])[1..] == st.buffer[1..] + [p];
    }
  }

  /** Without overlap nothing is dropped: dropping overlap copies is plain concatenation. */
  lemma {:induction false} DeduplicatedWithoutOverlap(gs: seq<seq<string>>, overlap: int)
    requires overlap <= 0
    ensures Deduplicated(gs, overlap) == Flatten(gs)
    decreases |gs|
  {
    if |gs| == 1 {
      assert gs[..0] == [];
      assert Flatten(gs) == Flatten([]) + gs[0];
    } else if |gs| > 1 {
      DeduplicatedWithoutOverlap(gs[..|gs| - 1], overlap);
    }
  }

  /** With overlap on, a group that follows a non-empty group starts with that group's last paragraph. */
  predicate Linked(gs: seq<seq<string>>)
  {
    forall i :: 0 <= i < |gs| - 1 && gs[i] != [] ==> gs[i + 1] != [] && gs[i + 1][0] == Last(gs[i])
  }

  lemma {:induction false} PackLinked(ps: seq<string>, chunkSize: int, overlap: int)
    requires overlap > 0
    ensures var st := Pack(ps, chunkSize, overlap); Linked(st.closed + [st.buffer])
    decreases |ps|
  {
    if ps != [] {
      var init, p := ps[..|ps| - 1], Last(ps);
      PackLinked(init, chunkSize, overlap);
      var st := Pack(init, chunkSize, overlap);
      var L := st.closed + [st.buffer];
      if SumLen(st.buffer) + |p| > chunkSize {
        var seed := if |st.buffer| > 0 then [Last(st.buffer)] else [];
        var L' := L + [seed + [p]];
        assert Pack(ps, chunkSize, overlap).closed + [Pack(ps, chunkSize, overlap).buffer] == L';
        forall i | 0 <= i < |L'| - 1 && L'[i] != []
          ensures L'[i + 1] != [] && L'[i + 1][0] == Last(L'[i])
        {
          if i < |L| - 1 {
            assert L'[i] == L[i] && L'[i + 1] == L[i + 1];
          }
        }
      } else {
        var L' := st.closed + [st.buffer + [p]];
        assert Pack(ps, chunkSize, overlap).closed + [Pack(ps, chunkSize, overlap).buffer] == L';
        forall i | 0 <= i < |L'| - 1 && L'[i] != []
          ensures L'[i + 1] != [] && L'[i + 1][0] == Last(L'[i])
        {
          assert L'[i] == L[i];
          if i < |L'| - 2 {
            assert L'[i + 1] == L[i + 1];
          } else {
            assert L[i + 1] == st.buffer;
          }
        }
      }
    }
  }

  /** `SumLen` of a list with one more paragraph. */
  lemma SumLenSnoc(ps: seq<string>, p: string)
    ensures SumLen(ps + [p]) == SumLen(ps) + |p|
  {
    assert (ps + [p])[..|ps|] == ps;
  }

  /** Without overlap, a group of two or more paragraphs never exceeds `chunkSize` in total. */
  predicate WithinBudget(gs: seq<seq<string>>, chunkSize: int)
  {
    forall g <- gs :: |g| >= 2 ==> SumLen(g) <= chunkSize
  }

  lemma {:induction false} PackWithinBudget(ps: seq<string>, chunkSize: int, overlap: int)
    requires overlap <= 0
    ensures var st := Pack(ps, chunkSize, overlap); WithinBudget(st.closed + [st.buffer], chunkSize)
    decreases |ps|
  {
    if ps != [] {
      var init, p := ps[..|ps| - 1], Last(ps);
      PackWithinBudget(init, chunkSize, overlap);
      var st := Pack(init, chunkSize, overlap);
      StepGroups(st, p, chunkSize, overlap);
      assert st.buffer in st.closed + [st.buffer];
      SumLenSnoc(st.buffer, p);
      if SumLen(st.buffer) + |p| > chunkSize {
        assert [] + [p] == [p];
      }
    }
  }

  /**
   * Without overlap the packing is greedy: every closed group, together with the first
   * paragraph of the group after it, exceeds `chunkSize`.
   */
  predicate Greedy(gs: seq<seq<string>>, chunkSize: int)
  {
    forall i :: 1 <= i < |gs| ==> gs[i] != [] && SumLen(gs[i - 1]) + |gs[i][0]| > chunkSize
  }

  lemma {:induction false} PackGreedy(ps: seq<string>, chunkSize: int, overlap: int)
    requires overlap <= 0
    ensures var st := Pack(ps, chunkSize, overlap); Greedy(st.closed + [st.buffer], chunkSize)
    decreases |ps|
  {
    if ps != [] {
      var init, p := ps[..|ps| - 1], Last(ps);
      PackGreedy(init, chunkSize, overlap);
      var st := Pack(init, chunkSize, overlap);
      var L := st.closed + [st.buffer];
      if SumLen(st.buffer) + |p| > chunkSize {
        var L' := L + [[p]];
        assert [] + [p] == [p];
        assert Pack(ps, chunkSize, overlap).closed + [Pack(ps, chunkSize, overlap).buffer] == L';
        forall i | 1 <= i < |L'|
          ensures L'[i] != [] && SumLen(L'[i - 1]) + |L'[i][0]| > chunkSize
        {
          if i < |L| {
            assert L'[i - 1] == L[i - 1] && L'[i] == L[i];
          }
        }
      } else {
        var L' := st.closed + [st.buffer + [p]];
        assert Pack(ps, chunkSize, overlap).closed + [Pack(ps, chunkSize, overlap).buffer] == L';
        if st.closed != [] {
          PackBuffer(init, chunkSize, overlap);
        }
        forall i | 1 <= i < |L'|
          ensures L'[i] != [] && SumLen(L'[i - 1]) + |L'[i][0]| > chunkSize
        {
          if i < |L'| - 1 {
            assert L'[i - 1] == L[i - 1] && L'[i] == L[i];
          } else {
            assert L'[i - 1] == L[i - 1] && L[i] == st.buffer;
          }
        }
      }
    }
  }

  /**
   * Only the first closed group can be empty, and it is empty exactly when the first
   * paragraph alone exceeds `chunkSize` (the empty initial buffer is then flushed).
   */
  lemma {:induction false} PackLeading(ps: seq<string>, chunkSize: int, overlap: int)
    requires ps != []
    ensures var st := Pack(ps, chunkSize, overlap);
      (|ps[0]| > chunkSize <==> st.closed != [] && st.closed[0] == [])
    ensures var st := Pack(ps, chunkSize, overlap);
      forall i :: 0 < i < |st.closed| ==> st.closed[i] != []
    decreases |ps|
  {
    var init, p := ps[..|ps| - 1], Last(ps);
    assert ps == init + [p];
    if init != [] {
      PackLeading(init, chunkSize, overlap);
      PackBuffer(init, chunkSize, overlap);
      assert init[0] == ps[0];
      var st := Pack(init, chunkSize, overlap);
      StepClosed(st, p, chunkSize, overlap);
      var st' := Step(st, p, chunkSize, overlap);
      forall i | 0 < i < |st'.closed| ensures st'.closed[i] != [] {
        if i < |st.closed| {
          assert st'.closed[i] == st.closed[i];
        }
      }
      if st.closed != [] {
        assert st'.closed[0] == st.closed[0];
      }
    }
  }

  /** A step either keeps the closed groups or closes the buffer after them. */
  lemma StepClosed(st: Packing, p: string, chunkSize: int, overlap: int)
    ensures var st' := Step(st, p, chunkSize, overlap);
      if SumLen(st.buffer) + |p| > chunkSize then st'.closed == st.closed + [st.buffer] else st'.closed == st.closed
  {
  }

  /** Only the sign of `overlap` is ever looked at. */
  lemma {:induction false} PackSignOnly(ps: seq<string>, chunkSize: int, overlap1: int, overlap2: int)
    requires (overlap1 > 0) == (overlap2 > 0)
    ensures Pack(ps, chunkSize, overlap1) == Pack(ps, chunkSize, overlap2)
    decreases |ps|
  {
    if ps != [] {
      PackSignOnly(ps[..|ps| - 1], chunkSize, overlap1, overlap2);
    }
  }

  // ---------------------------------------------------------------------------
  // What `chunk_text` returns

  /** The groups are the closed groups followed by the (non-empty) last buffer. */
  lemma GroupsShape(text: string, chunkSize: int, overlap: int)
    ensures var st := Pack(Paragraphs(text), chunkSize, overlap);
      Groups(text, chunkSize, overlap) == st.closed + [st.buffer] && st.buffer != []
  {
    PackBuffer(Paragraphs(text), chunkSize, overlap);
  }

  /** `chunk_text` never returns an empty list. */
  lemma ChunksNonEmpty(text: string, chunkSize: int, overlap: int)
    ensures |Chunks(text, chunkSize, overlap)| >= 1
  {
    GroupsShape(text, chunkSize, overlap);
  }

  /** The empty text gives one empty chunk (for a non-negative budget). */
  lemma ChunksOfEmptyText(chunkSize: int, overlap: int)
    requires chunkSize >= 0
    ensures Chunks("", chunkSize, overlap) == [""]
  {
    assert Paragraphs("") == [""];
    assert Pack([""], chunkSize, overlap) == Packing([], [""]) by {
      assert [""][..0] == [];
    }
  }

  /** With a negative budget the empty text gives two empty chunks: the empty initial buffer is flushed first. */
  lemma ChunksOfEmptyTextNegativeBudget(chunkSize: int, overlap: int)
    requires chunkSize < 0
    ensures Chunks("", chunkSize, overlap) == ["", ""]
  {
    assert Paragraphs("") == [""];
    assert Pack([""], chunkSize, overlap) == Packing([[]], [""]) by {
      assert [""][..0] == [];
    }
  }

  /** Every paragraph ends up in a chunk, in order: dropping the overlap copies gives back `text.split('\n\n')`. */
  lemma ChunksCoverParagraphs(text: string, chunkSize: int, overlap: int)
    ensures Deduplicated(Groups(text, chunkSize, overlap), overlap) == Paragraphs(text)
  {
    GroupsShape(text, chunkSize, overlap);
    PackDeduplicated(Paragraphs(text), chunkSize, overlap);
  }

  /** Without overlap the groups partition the paragraphs: their concatenation is `text.split('\n\n')`. */
  lemma ChunksPartitionParagraphs(text: string, chunkSize: int, overlap: int)
    requires overlap <= 0
    ensures Flatten(Groups(text, chunkSize, overlap)) == Paragraphs(text)
  {
    ChunksCoverParagraphs(text, chunkSize, overlap);
    DeduplicatedWithoutOverlap(Groups(text, chunkSize, overlap), overlap);
  }

  /** With overlap on, a chunk after a non-empty chunk begins with the last paragraph of that chunk. */
  lemma ChunksOverlap(text: string, chunkSize: int, overlap: int, i: nat)
    requires overlap > 0
    requires i + 1 < |Groups(text, chunkSize, overlap)|
    requires Groups(text, chunkSize, overlap)[i] != []
    ensures var gs := Groups(text, chunkSize, overlap); gs[i + 1] != [] && gs[i + 1][0] == Last(gs[i])
  {
    GroupsShape(text, chunkSize, overlap);
    PackLinked(Paragraphs(text), chunkSize, overlap);
  }

  /** Without overlap, only a chunk of a single paragraph can exceed `chunkSize` (separators not counted). */
  lemma ChunksWithinBudget(text: string, chunkSize: int, overlap: int, i: nat)
    requires overlap <= 0
    requires i < |Groups(text, chunkSize, overlap)|
    requires |Groups(text, chunkSize, overlap)[i]| >= 2
    ensures SumLen(Groups(text, chunkSize, overlap)[i]) <= chunkSize
  {
    GroupsShape(text, chunkSize, overlap);
    PackWithinBudget(Paragraphs(text), chunkSize, overlap);
    assert Groups(text, chunkSize, overlap)[i] in Groups(text, chunkSize, overlap);
  }

  /** Without overlap, a chunk is closed only when the next paragraph would not fit. */
  lemma ChunksGreedy(text: string, chunkSize: int, overlap: int, i: nat)
    requires overlap <= 0
    requires i + 1 < |Groups(text, chunkSize, overlap)|
    ensures var gs := Groups(text, chunkSize, overlap);
      gs[i + 1] != [] && SumLen(gs[i]) + |gs[i + 1][0]| > chunkSize
  {
    GroupsShape(text, chunkSize, overlap);
    PackGreedy(Paragraphs(text), chunkSize, overlap);
    assert 1 <= i + 1 < |Groups(text, chunkSize, overlap)|;
  }

  /** The first chunk is `""` from an empty group exactly when the first paragraph alone is over budget; no later group is empty. */
  lemma ChunksLeadingEmpty(text: string, chunkSize: int, overlap: int)
    ensures var gs := Groups(text, chunkSize, overlap);
      (gs[0] == [] <==> |Paragraphs(text)[0]| > chunkSize)
    ensures var gs := Groups(text, chunkSize, overlap);
      forall i :: 0 < i < |gs| ==> gs[i] != []
    ensures |Paragraphs(text)[0]| > chunkSize ==> Chunks(text, chunkSize, overlap)[0] == ""
  {
    GroupsShape(text, chunkSize, overlap);
    PackLeading(Paragraphs(text), chunkSize, overlap);
  }

  /** Only the sign of `overlap` matters. */
  lemma ChunksSignOnly(text: string, chunkSize: int, overlap1: int, overlap2: int)
    requires (overlap1 > 0) == (overlap2 > 0)
    ensures Chunks(text, chunkSize, overlap1) == Chunks(text, chunkSize, overlap2)
  {
    PackSignOnly(Paragraphs(text), chunkSize, overlap1, overlap2);
  }

  /** Joining two non-empty lists puts one separator between their joins. */
  lemma {:induction false} JoinAppend(a: seq<string>, b: seq<string>, sep: string)
    requires a != [] && b != []
    ensures Join(a + b, sep) == Join(a, sep) + sep + Join(b, sep)
    decreases |a|
  {
    if |a| == 1 {
      JoinCons(a[0], b, sep);
      assert a + b == [a[0]] + b;
    } else {
      JoinAppend(a[1..], b, sep);
      assert (a + b)[1..] == a[1..] + b;
      JoinCons(a[0], a[1..] + b, sep);
      JoinCons(a[0], a[1..], sep);
      assert [a[0]] + a[1..] == a;
      assert [a[0]] + (a[1..] + b) == a + b;
    }
  }

  /** Joining the joins of non-empty groups is joining all their paragraphs. */
  lemma {:induction false} JoinGroupsFlatten(gs: seq<seq<string>>)
    requires forall g <- gs :: g != []
    ensures Join(JoinGroups(gs), ParagraphBreak) == Join(Flatten(gs), ParagraphBreak)
    decreases |gs|
  {
    if |gs| == 1 {
      assert gs[..0] == [];
      assert Flatten(gs) == gs[0];
    } else if |gs| > 1 {
      var init := gs[..|gs| - 1];
      assert forall g <- init :: g in gs;
      JoinGroupsFlatten(init);
      assert JoinGroups(gs) == JoinGroups(init) + [Join(Last(gs), ParagraphBreak)];
      JoinLast(JoinGroups(gs), ParagraphBreak);
      assert JoinGroups(gs)[..|gs| - 1] == JoinGroups(init);
      assert Flatten(init) != [] by {
        FlattenNonEmpty(init);
      }
      assert Last(gs) in gs;
      JoinAppend(Flatten(init), Last(gs), ParagraphBreak);
    }
  }

  lemma {:induction false} FlattenNonEmpty(gs: seq<seq<string>>)
    requires gs != [] && forall g <- gs :: g != []
    ensures Flatten(gs) != []
  {
    assert Last(gs) in gs;
  }

  /**
   * Without overlap, and when the first paragraph fits the budget, joining the chunks
   * with the paragraph separator gives back the text exactly.
   */
  lemma ChunksRoundTrip(text: string, chunkSize: int, overlap: int)
    requires overlap <= 0
    requires |Paragraphs(text)[0]| <= chunkSize
    ensures Join(Chunks(text, chunkSize, overlap), ParagraphBreak) == text
  {
    var gs := Groups(text, chunkSize, overlap);
    ChunksLeadingEmpty(text, chunkSize, overlap);
    assert forall g <- gs :: g != [] by {
      forall g <- gs ensures g != [] {
        var i :| 0 <= i < |gs| && gs[i] == g;
      }
    }
    JoinGroupsFlatten(gs);
    ChunksPartitionParagraphs(text, chunkSize, overlap);
    JoinSplit(text, ParagraphBreak);
  }
}
