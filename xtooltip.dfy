/**
 * The caption word-wrapping of the editor's tooltip control.
 *
 * A caption longer than 80 characters is split on single spaces into words;
 * the words are grouped into chunks, a chunk being closed as soon as its
 * running length (each word's length plus one for the space the split
 * removed) exceeds 60, or at the last word; the caption is then rebuilt with
 * every word followed by a space and every chunk followed by a line break.
 */
module XToolTip {

  /** Captions up to this length are shown as they are. */
  const MaxUnwrappedLength := 80

  /** A chunk is closed once its running length exceeds this. */
  const ChunkLimit := 60

  // ---------------------------------------------------------------------
  // Splitting on single spaces, and its inverse
  // ---------------------------------------------------------------------

  /**
   * `s.Split(' ')`: the pieces of `s` between single spaces, in order.
   * Consecutive spaces give empty pieces, and there is always at least one
   * piece (the empty string splits into one empty piece).
   */
  function Split(s: string): (words: seq<string>)
    ensures |words| >= 1
  {
    if s == [] then [[]]
    else
      var rest := Split(s[1..]);
      if s[0] == ' ' then [[]] + rest
      else [[s[0]] + rest[0]] + rest[1..]
  }

  /** The words put back together with one space between neighbours. */
  function Join(words: seq<string>): string
    requires |words| >= 1
  {
    if |words| == 1 then words[0] else words[0] + " " + Join(words[1..])
  }

  /** Splitting loses nothing: joining the pieces restores the caption, and no piece holds a space. */
  lemma {:induction false} JoinSplit(s: string)
    ensures Join(Split(s)) == s
    ensures forall i, k :: 0 <= i < |Split(s)| && 0 <= k < |Split(s)[i]| ==> Split(s)[i][k] != ' '
  {
    if s != [] {
      JoinSplit(s[1..]);
      var rest := Split(s[1..]);
      if s[0] == ' ' {
        assert Split(s) == [[]] + rest;
      } else {
        assert Split(s) == [[s[0]] + rest[0]] + rest[1..];
        if |rest| > 1 {
          assert rest == [rest[0]] + rest[1..];
          assert Join(rest) == rest[0] + " " + Join(rest[1..]);
        }
        assert s == [s[0]] + s[1..];
      }
    }
  }

  /** Splitting a space-free word followed by more text. */
  lemma {:induction false} SplitSpaceFreePrefix(w: string, t: string)
    requires forall k :: 0 <= k < |w| ==> w[k] != ' '
    ensures Split(w + t) == [w + Split(t)[0]] + Split(t)[1..]
  {
    if w != [] {
      assert (w + t)[1..] == w[1..] + t;
      SplitSpaceFreePrefix(w[1..], t);
      var r, u := Split(w[1..] + t), Split(t);
      assert r[0] == w[1..] + u[0] && r[1..] == u[1..];
      assert Split(w + t) == [[w[0]] + r[0]] + r[1..];
      assert [w[0]] + (w[1..] + u[0]) == w + u[0];
    } else {
      var u := Split(t);
      assert w + t == t && w + u[0] == u[0];
      assert u == [u[0]] + u[1..];
    }
  }

  /** Joining space-free words and splitting again gives the words back. */
  lemma {:induction false} SplitJoin(words: seq<string>)
    requires |words| >= 1
    requires forall i, k :: 0 <= i < |words| && 0 <= k < |words[i]| ==> words[i][k] != ' '
    ensures Split(Join(words)) == words
  {
    SplitSpaceFreePrefix(words[0], if |words| == 1 then [] else " " + Join(words[1..]));
    if |words| == 1 {
      assert words[0] + [] == words[0];
    } else {
      SplitJoin(words[1..]);
      var t := " " + Join(words[1..]);
      assert t[1..] == Join(words[1..]);
      assert Split(t) == [[]] + words[1..];
      assert words[0] + t == words[0] + " " + Join(words[1..]);
      assert words[0] + [] == words[0];
    }
  }

  // ---------------------------------------------------------------------
  // Chunking
  // ---------------------------------------------------------------------

  /** The running length of a run of words: each word's length plus one for its lost separator. */
  function Weight(words: seq<string>): nat
  {
    if words == [] then 0 else Weight(words[..|words| - 1]) + |words[|words| - 1]| + 1
  }

  /** The running length counts every separator once: it is the caption's length plus one. */
  lemma {:induction false} WeightOfJoin(words: seq<string>)
    requires |words| >= 1
    ensures Weight(words) == |Join(words)| + 1
  {
    if |words| > 1 {
      WeightOfJoin(words[1..]);
      WeightOfTail(words);
    }
  }

  /**
   * Every space of the caption, including those around the empty words that
   * consecutive spaces give, adds one to the running length: the words'
   * running length is the caption's length plus one.
   */
  lemma SplitWeight(s: string)
    ensures Weight(Split(s)) == |s| + 1
  {
    JoinSplit(s);
    WeightOfJoin(Split(s));
  }

  /** Joining two runs of words puts one space between them. */
  lemma {:induction false} JoinAppend(a: seq<string>, b: seq<string>)
    requires |a| >= 1 && |b| >= 1
    ensures Join(a + b) == Join(a) + " " + Join(b)
  {
    if |a| > 1 {
      assert (a + b)[1..] == a[1..] + b;
      JoinAppend(a[1..], b);
    } else {
      assert (a + b)[1..] == b;
    }
  }

  /** A single space separates the pieces of what comes before it from those of what comes after. */
  lemma SplitAtSpace(x: string, y: string)
    ensures Split(x + " " + y) == Split(x) + Split(y)
  {
    var u, v := Split(x), Split(y);
    JoinSplit(x);
    JoinSplit(y);
    JoinAppend(u, v);
    SpaceFreeAppend(u, v);
    SplitJoin(u + v);
  }

  /** Two runs of space-free words make one. */
  lemma SpaceFreeAppend(u: seq<string>, v: seq<string>)
    requires forall i, k :: 0 <= i < |u| && 0 <= k < |u[i]| ==> u[i][k] != ' '
    requires forall i, k :: 0 <= i < |v| && 0 <= k < |v[i]| ==> v[i][k] != ' '
    ensures forall i, k :: 0 <= i < |u + v| && 0 <= k < |(u + v)[i]| ==> (u + v)[i][k] != ' '
  {
    forall i, k | 0 <= i < |u + v| && 0 <= k < |(u + v)[i]|
      ensures (u + v)[i][k] != ' '
    {
      if i >= |u| {
        assert (u + v)[i] == v[i - |u|];
      }
    }
  }

  /**
   * Two spaces in a row, wherever they occur, give an empty word that is
   * kept between the pieces around them; the empty word adds one to the
   * running length.
   */
  lemma ConsecutiveSpaces(a: string, b: string, run: seq<string>)
    ensures Split(a + "  " + b) == Split(a) + [""] + Split(b)
    ensures (forall k :: 0 <= k < |a| ==> a[k] != ' ') ==> Split(a + "  " + b) == [a, ""] + Split(b)
    ensures Weight(run + [""]) == Weight(run) + 1
  {
    assert a + "  " + b == a + " " + (" " + b);
    assert "" + " " + b == " " + b;
    calc {
      Split(a + "  " + b);
      { SplitAtSpace(a, " " + b); }
      Split(a) + Split(" " + b);
      { SplitAtSpace("", b); }
      Split(a) + (Split("") + Split(b));
      Split(a) + [""] + Split(b);
    }
    if forall k :: 0 <= k < |a| ==> a[k] != ' ' {
      SplitJoin([a]);
      assert Split(a) == [a];
    }
    assert (run + [""])[..|run|] == run;
  }

  lemma {:induction false} WeightOfTail(words: seq<string>)
    requires |words| >= 1
    ensures Weight(words) == |words[0]| + 1 + Weight(words[1..])
    decreases |words|
  {
    if |words| > 1 {
      var init := words[..|words| - 1];
      WeightOfTail(init);
      assert init[1..] == words[1..][..|words[1..]| - 1];
    } else {
      assert words[..0] == [];
    }
  }

  /** A run of words whose running length has not gone over the limit. */
  predicate WithinLimit(run: seq<string>)
  {
    Weight(run) <= ChunkLimit
  }

  /** Every run of a chunk's words short of the whole chunk has kept the running length within the limit. */
  ghost predicate PrefixesWithinLimit(chunk: seq<string>)
  {
    forall j :: 1 <= j < |chunk| ==> WithinLimit(chunk[..j])
  }

  /**
   * Where the chunk that starts at the front of `words` ends, given that
   * its first `k` words are in it and none of the shorter runs closed it:
   * the least `r >= k` at which the running length exceeds the limit, or
   * the number of words.
   */
  function ChunkEnd(words: seq<string>, k: nat): (r: nat)
    requires 1 <= k <= |words|
    ensures k <= r <= |words|
    ensures r == |words| || !WithinLimit(words[..r])
    ensures forall j :: k <= j < r ==> WithinLimit(words[..j])
    decreases |words| - k
  {
    if k == |words| || !WithinLimit(words[..k]) then k else ChunkEnd(words, k + 1)
  }

  /** `ChunkEnd` is the least closing point: any `m` that closes the chunk with no earlier close is it. */
  lemma {:induction false} ChunkEndLeast(words: seq<string>, k: nat, m: nat)
    requires 1 <= k <= m <= |words|
    requires forall j :: k <= j < m ==> WithinLimit(words[..j])
    requires m == |words| || !WithinLimit(words[..m])
    ensures ChunkEnd(words, k) == m
    decreases m - k
  {
    if k < m {
      ChunkEndLeast(words, k + 1, m);
    }
  }

  /** The chunks of a sequence of words, front to back. */
  function Chunks(words: seq<string>): seq<seq<string>>
    decreases |words|
  {
    if words == [] then []
    else
      var k := ChunkEnd(words, 1);
      [words[..k]] + Chunks(words[k..])
  }

  /** The chunks written back to back. */
  function Flatten(chunks: seq<seq<string>>): seq<string>
  {
    if chunks == [] then [] else Flatten(chunks[..|chunks| - 1]) + chunks[|chunks| - 1]
  }

  lemma {:induction false} FlattenAppend(a: seq<seq<string>>, b: seq<seq<string>>)
    ensures Flatten(a + b) == Flatten(a) + Flatten(b)
  {
    if b != [] {
      assert (a + b)[..|a + b| - 1] == a + b[..|b| - 1];
      FlattenAppend(a, b[..|b| - 1]);
    } else {
      assert a + b == a;
    }
  }

  /**
   * What the chunking loop promises of a grouping of `words`: it loses,
   * reorders and breaks no word; no chunk is empty; inside a chunk the
   * running length after every word but the last stays within the limit;
   * and every chunk but the last went over the limit.
   */
  ghost predicate IsChunking(chunks: seq<seq<string>>, words: seq<string>)
  {
    && Flatten(chunks) == words
    && (forall c :: 0 <= c < |chunks| ==> |chunks[c]| > 0)
    && (forall c :: 0 <= c < |chunks| ==> PrefixesWithinLimit(chunks[c]))
    && (forall c :: 0 <= c < |chunks| - 1 ==> !WithinLimit(chunks[c]))
  }

  /** A first chunk that keeps the promises, put in front of a chunking of the remaining words. */
  lemma ChunkingCons(head: seq<string>, rest: seq<seq<string>>, tail: seq<string>)
    requires IsChunking(rest, tail)
    requires |head| > 0 && PrefixesWithinLimit(head)
    requires rest != [] ==> !WithinLimit(head)
    ensures IsChunking([head] + rest, head + tail)
  {
    var chunks := [head] + rest;
    FlattenAppend([head], rest);
    assert Flatten([head]) == head by {
      var one: seq<seq<string>> := [head];
      assert one[..0] == [];
    }
    assert Flatten(chunks) == head + tail;
    forall c | 0 <= c < |chunks|
      ensures |chunks[c]| > 0 && PrefixesWithinLimit(chunks[c])
    {
      if c > 0 {
        assert chunks[c] == rest[c - 1];
      }
    }
    forall c | 0 <= c < |chunks| - 1
      ensures !WithinLimit(chunks[c])
    {
      if c > 0 {
        assert chunks[c] == rest[c - 1];
      }
    }
  }

  /** The chunks satisfy every promise of the chunking loop. */
  lemma {:induction false} ChunksIsChunking(words: seq<string>)
    ensures IsChunking(Chunks(words), words)
    decreases |words|
  {
    if words != [] {
      var k := ChunkEnd(words, 1);
      var head := words[..k];
      ChunksIsChunking(words[k..]);
      forall j | 1 <= j < |head|
        ensures WithinLimit(head[..j])
      {
        assert head[..j] == words[..j];
      }
      ChunkingCons(head, Chunks(words[k..]), words[k..]);
      assert words == head + words[k..];
    }
  }

  /** The promises pin the grouping down: `Chunks` is the only grouping that keeps them all. */
  lemma {:induction false} ChunkingUnique(chunks: seq<seq<string>>, words: seq<string>)
    requires IsChunking(chunks, words)
    ensures chunks == Chunks(words)
    decreases |chunks|
  {
    if chunks == [] {
      assert words == Flatten(chunks) == [];
    } else {
      var head, rest := chunks[0], chunks[1..];
      assert chunks == [head] + rest;
      FlattenAppend([head], rest);
      assert Flatten([head]) == head by {
        var one: seq<seq<string>> := [head];
        assert one[..0] == [];
      }
      assert words == head + Flatten(rest);
      var m := |head|;
      assert words[..m] == head;
      forall j | 1 <= j < m
        ensures WithinLimit(words[..j])
      {
        assert words[..j] == chunks[0][..j];
      }
      if rest == [] {
        assert Flatten(rest) == [];
      } else {
        assert !WithinLimit(chunks[0]);
      }
      ChunkEndLeast(words, 1, m);
      assert words[m..] == Flatten(rest);
      forall c | 0 <= c < |rest|
        ensures PrefixesWithinLimit(rest[c])
      {
        assert rest[c] == chunks[c + 1];
      }
      forall c | 0 <= c < |rest| - 1
        ensures !WithinLimit(rest[c])
      {
        assert rest[c] == chunks[c + 1];
      }
      ChunkingUnique(rest, words[m..]);
    }
  }

  /**
   * The bound on a chunk's length: its running length is at most the limit
   * plus the length of its last word and that word's separator.
   */
  lemma ChunkBound(words: seq<string>, c: nat)
    requires c < |Chunks(words)|
    ensures |Chunks(words)[c]| > 0
    ensures Weight(Chunks(words)[c]) <= ChunkLimit + |Chunks(words)[c][|Chunks(words)[c]| - 1]| + 1
  {
    ChunksIsChunking(words);
    var chunk := Chunks(words)[c];
    assert PrefixesWithinLimit(chunk);
    if |chunk| > 1 {
      assert WithinLimit(chunk[..|chunk| - 1]);
    } else {
      assert chunk[..0] == [];
    }
  }

  /**
   * What the chunking loop keeps of the chunks it has closed when the
   * current chunk starts at word `start`: they are the words before `start`,
   * each keeps the promises of `IsChunking`, and each went over the limit
   * unless it was closed at the last word.
   */
  ghost predicate ClosedChunks(closed: seq<seq<string>>, words: seq<string>, start: nat)
  {
    && start <= |words|
    && Flatten(closed) == words[..start]
    && (forall c :: 0 <= c < |closed| ==> |closed[c]| > 0)
    && (forall c :: 0 <= c < |closed| ==> PrefixesWithinLimit(closed[c]))
    && (forall c :: 0 <= c < |closed| ==> !WithinLimit(closed[c]) || (c == |closed| - 1 && start == |words|))
  }

  /** The loop's adding step: a word added to a chunk that is within the limit keeps its shorter runs within it. */
  lemma OpenChunkGrows(run: seq<string>, w: string)
    requires WithinLimit(run) && PrefixesWithinLimit(run)
    ensures PrefixesWithinLimit(run + [w])
  {
    forall j | 1 <= j < |run + [w]|
      ensures WithinLimit((run + [w])[..j])
    {
      if j == |run| {
        assert (run + [w])[..j] == run;
      } else {
        assert (run + [w])[..j] == run[..j];
      }
    }
  }

  /**
   * The loop's closing step: when the words `start..i` have kept the running
   * length within the limit and word `i` takes it over the limit or is the
   * last word, closing the chunk `start..i` keeps `ClosedChunks`.
   */
  lemma {:induction false} CloseChunk(words: seq<string>, closed: seq<seq<string>>, start: nat, i: nat)
    requires start <= i < |words|
    requires ClosedChunks(closed, words, start)
    requires PrefixesWithinLimit(words[start..i + 1])
    requires !WithinLimit(words[start..i + 1]) || i == |words| - 1
    ensures ClosedChunks(closed + [words[start..i + 1]], words, i + 1)
  {
    var chunk := words[start..i + 1];
    var closed' := closed + [chunk];
    assert closed'[..|closed'| - 1] == closed;
    assert Flatten(closed') == words[..i + 1] by {
      assert words[..start] + chunk == words[..i + 1];
    }
    forall c | 0 <= c < |closed'|
      ensures PrefixesWithinLimit(closed'[c])
    {
      if c < |closed| {
        assert closed'[c] == closed[c];
      }
    }
    forall c | 0 <= c < |closed'|
      ensures !WithinLimit(closed'[c]) || (c == |closed'| - 1 && i + 1 == |words|)
    {
      if c < |closed| {
        assert closed'[c] == closed[c];
      }
    }
  }

  /** All words chunked: the closed chunks are the chunks. */
  lemma AllChunksClosed(closed: seq<seq<string>>, words: seq<string>)
    requires ClosedChunks(closed, words, |words|)
    ensures closed == Chunks(words)
  {
    assert words[..|words|] == words;
    ChunkingUnique(closed, words);
  }

  // ---------------------------------------------------------------------
  // Rebuilding the caption
  // ---------------------------------------------------------------------

  /** One chunk rebuilt: every word followed by a space. */
  function RenderChunk(chunk: seq<string>): string
  {
    if chunk == [] then "" else RenderChunk(chunk[..|chunk| - 1]) + chunk[|chunk| - 1] + " "
  }

  /** All chunks rebuilt: every chunk followed by a line break. */
  function Render(chunks: seq<seq<string>>): string
  {
    if chunks == [] then "" else Render(chunks[..|chunks| - 1]) + RenderChunk(chunks[|chunks| - 1]) + "\n"
  }

  /** The caption the tooltip shows. */
  function Wrap(caption: string): string
  {
    if |caption| > MaxUnwrappedLength then Render(Chunks(Split(caption))) else caption
  }

  lemma {:induction false} RenderChunkAppend(a: seq<string>, b: seq<string>)
    ensures RenderChunk(a + b) == RenderChunk(a) + RenderChunk(b)
  {
    if b != [] {
      assert (a + b)[..|a + b| - 1] == a + b[..|b| - 1];
      RenderChunkAppend(a, b[..|b| - 1]);
    } else {
      assert a + b == a;
    }
  }

  /** Rebuilding a run of words is joining them and adding one trailing space. */
  lemma {:induction false} RenderChunkJoin(words: seq<string>)
    requires |words| >= 1
    ensures RenderChunk(words) == Join(words) + " "
  {
    RenderChunkAppend([words[0]], words[1..]);
    assert [words[0]] + words[1..] == words;
    assert RenderChunk([words[0]]) == words[0] + " " by {
      var one: seq<string> := [words[0]];
      assert one[..0] == [];
    }
    if |words| > 1 {
      RenderChunkJoin(words[1..]);
    }
  }

  /** The text with every line break taken out. */
  function RemoveLineBreaks(s: string): string
  {
    if s == [] then [] else RemoveLineBreaks(s[..|s| - 1]) + (if s[|s| - 1] == '\n' then [] else [s[|s| - 1]])
  }

  /** The number of line breaks in the text. */
  function LineBreaks(s: string): nat
  {
    if s == [] then 0 else LineBreaks(s[..|s| - 1]) + (if s[|s| - 1] == '\n' then 1 else 0)
  }

  lemma {:induction false} LineBreaksAppend(a: string, b: string)
    ensures RemoveLineBreaks(a + b) == RemoveLineBreaks(a) + RemoveLineBreaks(b)
    ensures LineBreaks(a + b) == LineBreaks(a) + LineBreaks(b)
  {
    if b != [] {
      assert (a + b)[..|a + b| - 1] == a + b[..|b| - 1];
      LineBreaksAppend(a, b[..|b| - 1]);
    } else {
      assert a + b == a;
    }
  }

  /**
   * Rebuilding adds exactly one line break per chunk; once the line breaks
   * are taken out, what is left is the words, in order, each followed by a space.
   */
  lemma {:induction false} RenderLineBreaks(chunks: seq<seq<string>>)
    ensures RemoveLineBreaks(Render(chunks)) == RemoveLineBreaks(RenderChunk(Flatten(chunks)))
    ensures LineBreaks(Render(chunks)) == |chunks| + LineBreaks(RenderChunk(Flatten(chunks)))
  {
    if chunks != [] {
      var init, last := chunks[..|chunks| - 1], chunks[|chunks| - 1];
      RenderLineBreaks(init);
      LineBreaksAppend(Render(init) + RenderChunk(last), "\n");
      LineBreaksAppend(Render(init), RenderChunk(last));
      RenderChunkAppend(Flatten(init), last);
      LineBreaksAppend(RenderChunk(Flatten(init)), RenderChunk(last));
      assert RemoveLineBreaks("\n") == [] && LineBreaks("\n") == 1 by {
        assert "\n"[..0] == [];
      }
    }
  }

  /**
   * Wrapping a long caption only inserts line breaks and one space at the end:
   * taking the line breaks out of the result gives the caption's own text
   * (without its line breaks) followed by a space. No character but a line
   * break is lost or reordered; that the breaks fall only between whole
   * words is `WrapBreaksBetweenChunks`.
   */
  lemma WrapInsertsOnlyLineBreaks(caption: string)
    requires |caption| > MaxUnwrappedLength
    ensures RemoveLineBreaks(Wrap(caption)) == RemoveLineBreaks(caption) + " "
  {
    var words := Split(caption);
    RenderLineBreaks(Chunks(words));
    ChunksIsChunking(words);
    RenderChunkJoin(words);
    JoinSplit(caption);
    LineBreaksAppend(caption, " ");
    assert RemoveLineBreaks(" ") == " " by {
      assert " "[..0] == [];
    }
  }

  /** A long caption gains exactly one line break per chunk. */
  lemma WrapLineBreakCount(caption: string)
    requires |caption| > MaxUnwrappedLength
    ensures LineBreaks(Wrap(caption)) == |Chunks(Split(caption))| + LineBreaks(caption)
  {
    var words := Split(caption);
    RenderLineBreaks(Chunks(words));
    ChunksIsChunking(words);
    RenderChunkJoin(words);
    JoinSplit(caption);
    LineBreaksAppend(caption, " ");
    assert LineBreaks(" ") == 0 by {
      assert " "[..0] == [];
    }
  }

  /**
   * Where the line breaks go: rebuilding adds, for each chunk in turn, its
   * words joined by single spaces, then one space and one line break. A
   * line break therefore always follows a whole word and a space.
   */
  lemma LineBreakAfterWholeWords(chunks: seq<seq<string>>, c: nat)
    requires forall i :: 0 <= i < |chunks| ==> |chunks[i]| > 0
    requires c < |chunks|
    ensures Render(chunks[..c + 1]) == Render(chunks[..c]) + Join(chunks[c]) + " \n"
  {
    assert chunks[..c + 1][..c] == chunks[..c];
    RenderChunkJoin(chunks[c]);
  }

  /** For a long caption, the breaks fall after each chunk's words, and the chunks are the split words in order. */
  lemma WrapBreaksBetweenChunks(caption: string, c: nat)
    requires |caption| > MaxUnwrappedLength
    requires c < |Chunks(Split(caption))|
    ensures var chunks := Chunks(Split(caption));
      && Flatten(chunks) == Split(caption)
      && |chunks[c]| > 0
      && Render(chunks[..c + 1]) == Render(chunks[..c]) + Join(chunks[c]) + " \n"
      && Wrap(caption) == Render(chunks[..|chunks|])
  {
    var chunks := Chunks(Split(caption));
    ChunksIsChunking(Split(caption));
    LineBreakAfterWholeWords(chunks, c);
    assert chunks[..|chunks|] == chunks;
  }

  /** Rebuilt chunks end with a space and a line break when the last chunk is not empty. */
  lemma RenderEnding(chunks: seq<seq<string>>)
    requires |chunks| > 0 && |chunks[|chunks| - 1]| > 0
    ensures |Render(chunks)| >= 2 && Render(chunks)[|Render(chunks)| - 2..] == " \n"
  {
    var last := chunks[|chunks| - 1];
    var prefix := Render(chunks[..|chunks| - 1]) + RenderChunk(last[..|last| - 1]) + last[|last| - 1];
    assert Render(chunks) == prefix + " " + "\n";
  }

  /** A wrapped caption ends with a space and a line break, because its last chunk is not empty. */
  lemma WrapEnding(caption: string)
    requires |caption| > MaxUnwrappedLength
    ensures |Wrap(caption)| >= 2 && Wrap(caption)[|Wrap(caption)| - 2..] == " \n"
  {
    var chunks := Chunks(Split(caption));
    ChunksIsChunking(Split(caption));
    assert Flatten(chunks) == Split(caption);
    assert chunks != [];
    RenderEnding(chunks);
  }

  // ---------------------------------------------------------------------
  // The wrapping method
  // ---------------------------------------------------------------------

  /** The copy of the current chunk, word by word, that is kept before the chunk is cleared. */
  method CopyWords(wordsSoFar: seq<string>) returns (wordsSoFarCopy: seq<string>)
    ensures wordsSoFarCopy == wordsSoFar
  {
    wordsSoFarCopy := [];
    for j := 0 to |wordsSoFar|
      invariant wordsSoFarCopy == wordsSoFar[..j]
    {
      wordsSoFarCopy := wordsSoFarCopy + [wordsSoFar[j]];
    }
  }

  /**
   * The chunking loop: walks the words once, adding each to the current
   * chunk and closing the chunk when its running length exceeds the limit
   * or at the last word. The closed chunk is copied before the current one
   * is cleared.
   */
  method ChunkWords(splitCaption: seq<string>) returns (captionChunks: seq<seq<string>>)
    ensures captionChunks == Chunks(splitCaption)
  {
    var totalLength := 0;
    var wordsSoFar: seq<string> := [];
    captionChunks := [];
    ghost var start := 0;
    assert Flatten(captionChunks) == splitCaption[..0];

    for i := 0 to |splitCaption|
      invariant start <= i
      invariant i == |splitCaption| ==> start == i
      invariant ClosedChunks(captionChunks, splitCaption, start)
      invariant wordsSoFar == splitCaption[start..i]
      invariant totalLength == Weight(wordsSoFar)
      invariant WithinLimit(wordsSoFar) && PrefixesWithinLimit(wordsSoFar)
    {
      // one more for the space that the split removed
      totalLength := totalLength + |splitCaption[i]| + 1;
      OpenChunkGrows(wordsSoFar, splitCaption[i]);
      wordsSoFar := wordsSoFar + [splitCaption[i]];
      assert wordsSoFar == splitCaption[start..i + 1];
      assert wordsSoFar[..|wordsSoFar| - 1] == splitCaption[start..i];

      if totalLength > ChunkLimit || i == |splitCaption| - 1 {
        totalLength := 0;
        var wordsSoFarCopy := CopyWords(wordsSoFar);
        CloseChunk(splitCaption, captionChunks, start, i);
        captionChunks := captionChunks + [wordsSoFarCopy];
        wordsSoFar := [];
        start := i + 1;
      }
    }
    AllChunksClosed(captionChunks, splitCaption);
  }

  /** The rebuilding loops: every word followed by a space, every chunk by a line break. */
  method RebuildCaption(captionChunks: seq<seq<string>>) returns (caption: string)
    ensures caption == Render(captionChunks)
  {
    caption := "";
    for c := 0 to |captionChunks|
      invariant caption == Render(captionChunks[..c])
    {
      var listString := captionChunks[c];
      for w := 0 to |listString|
        invariant caption == Render(captionChunks[..c]) + RenderChunk(listString[..w])
      {
        assert listString[..w + 1][..w] == listString[..w];
        caption := caption + listString[w] + " ";
      }
      assert listString[..|listString|] == listString;
      assert captionChunks[..c + 1][..c] == captionChunks[..c];
      caption := caption + "\n";
    }
    assert captionChunks[..|captionChunks|] == captionChunks;
  }

  /**
   * The caption `SetToolTipText` hands to the tooltip: a long caption is
   * split, chunked and rebuilt; a short one is kept. Showing it is left out.
   */
  method SetToolTipText(caption: string) returns (text: string)
    ensures |caption| <= MaxUnwrappedLength ==> text == caption
    ensures text == Wrap(caption)
  {
    text := caption;
    if |caption| > MaxUnwrappedLength {
      var splitCaption := Split(caption);
      var captionChunks := ChunkWords(splitCaption);
      text := RebuildCaption(captionChunks);
    }
  }
}
