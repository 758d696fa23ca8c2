/**
 * Splitting a document into overlapping chunks (src/rag/text-splitter.service.ts).
 */
module TextSplitter {
  import opened Common

  // ---- sentences -----------------------------------------------------------------

  predicate Delimiter(c: char) {
    c in "\U{3002}\U{FF01}\U{FF1F}!?\U{FF1B};\n"
  }

  /** Full stop, exclamation and question mark and semicolon, in their CJK and ASCII forms, and the line feed. */
  lemma DelimiterCodes(c: char)
    ensures Delimiter(c) <==>
            c as int in [0x3002, 0xFF01, 0xFF1F, 0xFF1B, 0x21, 0x3F, 0x3B, 0x0A]
  {
  }

  /** The length of the longest prefix without a delimiter. */
  function RunLength(text: string): (n: nat)
    ensures n <= |text|
    ensures forall i | 0 <= i < n :: !Delimiter(text[i])
    ensures n < |text| ==> Delimiter(text[n])
  {
    if text == "" || Delimiter(text[0]) then 0 else 1 + RunLength(text[1..])
  }

  /** Non-empty runs, each with the delimiter that ends it, trimmed; blank ones are dropped. */
  function Parts(text: string): seq<string>
    decreases |text|
  {
    if text == "" then []
    else if Delimiter(text[0]) then Parts(text[1..])
    else
      var end := MatchEnd(text);
      var sentence := Trim(text[..end]);
      (if sentence != "" then [sentence] else []) + Parts(text[end..])
  }

  function Sentences(text: string): seq<string> {
    var parts := Parts(text);
    if parts != [] then parts else [text]
  }

  /** What a reader would miss: everything but white space and delimiters. */
  function Substance(s: string): string {
    if s == "" then "" else (if IsSpace(s[0]) || Delimiter(s[0]) then "" else [s[0]]) + Substance(s[1..])
  }

  lemma {:induction false} SubstanceAppend(a: string, b: string)
    ensures Substance(a + b) == Substance(a) + Substance(b)
    decreases |a|
  {
    if a == "" {
      assert a + b == b;
    } else {
      assert (a + b)[1..] == a[1..] + b;
      SubstanceAppend(a[1..], b);
    }
  }

  lemma {:induction false} TrimStartKeepsSubstance(s: string)
    ensures Substance(TrimStart(s)) == Substance(s)
  {
    if s != "" && IsSpace(s[0]) {
      TrimStartKeepsSubstance(s[1..]);
    }
  }

  lemma {:induction false} TrimEndKeepsSubstance(s: string)
    ensures Substance(TrimEnd(s)) == Substance(s)
    decreases |s|
  {
    if s != "" && IsSpace(s[|s| - 1]) {
      TrimEndKeepsSubstance(s[..|s| - 1]);
      SubstanceAppend(s[..|s| - 1], [s[|s| - 1]]);
      assert s == s[..|s| - 1] + [s[|s| - 1]];
    }
  }

  lemma TrimKeepsSubstance(s: string)
    ensures Substance(Trim(s)) == Substance(s)
  {
    TrimStartKeepsSubstance(s);
    TrimEndKeepsSubstance(TrimStart(s));
  }

  /** Where the first match of the pattern ends in a text that starts with no delimiter. */
  function MatchEnd(text: string): (end: nat)
    requires text != "" && !Delimiter(text[0])
    ensures 0 < end <= |text|
  {
    var n := RunLength(text);
    if n < |text| then n + 1 else n
  }

  lemma {:induction false} PartsKeepSubstance(text: string)
    ensures Substance(Concat(Parts(text))) == Substance(text)
    decreases |text|
  {
    hide *;
    FirstPart(text);
    if text != "" && Delimiter(text[0]) {
      PartsKeepSubstance(text[1..]);
      DelimitersHaveNoSubstance(text);
    } else if text != "" {
      var end := MatchEnd(text);
      var sentence, rest := Trim(text[..end]), Parts(text[end..]);
      PartsKeepSubstance(text[end..]);
      TrimKeepsSubstance(text[..end]);
      ConcatOptional(sentence, rest);
      SubstanceAppend(sentence, Concat(rest));
      SubstanceAppend(text[..end], text[end..]);
      assert text == text[..end] + text[end..];
    } else {
      NothingIsLost();
    }
  }

  lemma FirstPart(text: string)
    ensures Parts(text) ==
            if text == "" then []
            else if Delimiter(text[0]) then Parts(text[1..])
            else (if Trim(text[..MatchEnd(text)]) != "" then [Trim(text[..MatchEnd(text)])] else []) + Parts(text[MatchEnd(text)..])
  {
    hide Trim, MatchEnd, Delimiter;
  }

  lemma DelimitersHaveNoSubstance(text: string)
    requires text != "" && Delimiter(text[0])
    ensures Substance(text) == Substance(text[1..])
  {
    hide Delimiter;
    assert "" + Substance(text[1..]) == Substance(text[1..]);
  }

  lemma NothingIsLost()
    ensures Concat([]) == "" && Substance("") == ""
  {
  }

  lemma ConcatOptional(s: string, rest: seq<string>)
    ensures Concat((if s != "" then [s] else []) + rest) == s + Concat(rest)
  {
    if s != "" {
      assert ([s] + rest)[1..] == rest;
    } else {
      assert [] + rest == rest && "" + Concat(rest) == Concat(rest);
    }
  }

  lemma {:induction false} PartsAreNonEmpty(text: string)
    ensures forall s | s in Parts(text) :: s != ""
    decreases |text|
  {
    if text != "" {
      PartsAreNonEmpty(text[if Delimiter(text[0]) then 1 else MatchEnd(text)..]);
    }
  }

  // ---- which stretches of the text the sentences are -------------------------------

  /**
   * From a character that is no delimiter, at the beginning or behind a
   * delimiter, up to and including the next delimiter or up to the end.
   */
  predicate IsCut(text: string, start: nat, end: nat) {
    && start < end <= |text|
    && !Delimiter(text[start]) && (start == 0 || Delimiter(text[start - 1]))
    && (forall k | start <= k < end - 1 :: !Delimiter(text[k]))
    && (end == |text| || Delimiter(text[end - 1]))
  }

  datatype Cut = Cut(start: nat, end: nat)

  /** The stretches without the white space around them; blank ones are dropped. */
  function Trimmed(text: string, cuts: seq<Cut>): seq<string>
    requires forall i | 0 <= i < |cuts| :: cuts[i].start <= cuts[i].end <= |text|
  {
    if cuts == [] then []
    else
      var sentence := Trim(text[cuts[0].start..cuts[0].end]);
      (if sentence != "" then [sentence] else []) + Trimmed(text, cuts[1..])
  }

  /** The run at a position, with its delimiter, is a cut, and the only one that starts before the next. */
  lemma FirstCut(text: string, at: nat, end: nat)
    requires at < |text| && !Delimiter(text[at]) && (at == 0 || Delimiter(text[at - 1]))
    requires end == at + MatchEnd(text[at..])
    ensures at < end <= |text| && IsCut(text, at, end) && (end == |text| || Delimiter(text[end - 1]))
    ensures forall i: nat, j: nat | IsCut(text, i, j) && at <= i < end :: i == at && j == end
  {
    var n := RunLength(text[at..]);
    assert forall k | at <= k < at + n :: !Delimiter(text[k]) by {
      assert forall k | at <= k < at + n :: text[k] == text[at..][k - at];
    }
    if at + n < |text| {
      assert text[at..][n] == text[at + n];
    }
    assert forall k | at <= k < end - 1 :: !Delimiter(text[k]);
    assert end == |text| || Delimiter(text[end - 1]);
    hide Delimiter;
  }

  /** In order, apart, and inside the text. */
  predicate InOrder(text: string, cuts: seq<Cut>) {
    && (forall i | 0 <= i < |cuts| :: cuts[i].start <= cuts[i].end <= |text|)
    && (forall i, j | 0 <= i < j < |cuts| :: cuts[i].end <= cuts[j].start)
  }

  /** The cuts from a position on, all of them and nothing else. */
  ghost predicate AllCuts(text: string, at: nat, cuts: seq<Cut>) {
    forall c :: c in cuts <==> at <= c.start && IsCut(text, c.start, c.end)
  }

  lemma {:induction false} PartsAreCuts(text: string, at: nat) returns (cuts: seq<Cut>)
    requires at <= |text| && (at == 0 || at == |text| || Delimiter(text[at - 1]))
    ensures InOrder(text, cuts) && AllCuts(text, at, cuts)
    ensures Parts(text[at..]) == Trimmed(text, cuts)
    decreases |text| - at
  {
    hide *;
    FirstPart(text[at..]);
    if at == |text| {
      cuts := [];
      NoCutAtTheEnd(text);
    } else if Delimiter(text[at]) {
      assert text[at..][1..] == text[at + 1..];
      cuts := PartsAreCuts(text, at + 1);
      NoCutAtADelimiter(text, at, cuts);
    } else {
      var end := at + MatchEnd(text[at..]);
      FirstCut(text, at, end);
      assert text[at..][..end - at] == text[at..end] && text[at..][end - at..] == text[end..];
      var rest := PartsAreCuts(text, end);
      cuts := [Cut(at, end)] + rest;
      FrontCut(text, at, end, rest);
    }
  }

  lemma NoCutAtTheEnd(text: string)
    ensures AllCuts(text, |text|, []) && InOrder(text, []) && Trimmed(text, []) == []
  {
  }

  lemma NoCutAtADelimiter(text: string, at: nat, cuts: seq<Cut>)
    requires at < |text| && Delimiter(text[at]) && AllCuts(text, at + 1, cuts)
    ensures AllCuts(text, at, cuts)
  {
    hide Delimiter;
  }

  lemma FrontCut(text: string, at: nat, end: nat, rest: seq<Cut>)
    requires at < end <= |text| && IsCut(text, at, end) && InOrder(text, rest) && AllCuts(text, end, rest)
    requires forall i: nat, j: nat | IsCut(text, i, j) && at <= i < end :: i == at && j == end
    ensures var cuts := [Cut(at, end)] + rest;
            && InOrder(text, cuts) && AllCuts(text, at, cuts)
            && Trimmed(text, cuts) == (if Trim(text[at..end]) != "" then [Trim(text[at..end])] else []) + Trimmed(text, rest)
  {
    hide *;
    FrontInAll(text, at, end, rest);
    FrontInOrder(text, at, end, rest);
    FrontTrimmed(text, at, end, rest);
  }

  lemma FrontInAll(text: string, at: nat, end: nat, rest: seq<Cut>)
    requires at < end && IsCut(text, at, end) && AllCuts(text, end, rest)
    requires forall i: nat, j: nat | IsCut(text, i, j) && at <= i < end :: i == at && j == end
    ensures AllCuts(text, at, [Cut(at, end)] + rest)
  {
    hide IsCut;
    forall c: Cut ensures c in [Cut(at, end)] + rest <==> at <= c.start && IsCut(text, c.start, c.end) {
      if at <= c.start < end && IsCut(text, c.start, c.end) {
        assert c == Cut(at, end);
      }
    }
  }

  lemma FrontInOrder(text: string, at: nat, end: nat, rest: seq<Cut>)
    requires at < end <= |text| && InOrder(text, rest) && AllCuts(text, end, rest)
    ensures InOrder(text, [Cut(at, end)] + rest)
  {
    hide IsCut;
    var cuts := [Cut(at, end)] + rest;
    forall i, j | 0 <= i < j < |cuts| ensures cuts[i].end <= cuts[j].start {
      assert rest[j - 1] in rest;
    }
  }

  lemma FrontTrimmed(text: string, at: nat, end: nat, rest: seq<Cut>)
    requires at < end <= |text| && InOrder(text, rest) && InOrder(text, [Cut(at, end)] + rest)
    ensures Trimmed(text, [Cut(at, end)] + rest)
            == (if Trim(text[at..end]) != "" then [Trim(text[at..end])] else []) + Trimmed(text, rest)
  {
    hide Trim;
    assert ([Cut(at, end)] + rest)[1..] == rest;
  }

  /**
   * The sentences of a text are exactly its cuts, from left to right, each
   * trimmed, the blank ones left out; a text of delimiters and blank cuts
   * alone is its own only sentence.
   */
  lemma SentencesAreCuts(text: string) returns (cuts: seq<Cut>)
    ensures forall c :: c in cuts <==> IsCut(text, c.start, c.end)
    ensures InOrder(text, cuts)
    ensures Sentences(text) == if Trimmed(text, cuts) != [] then Trimmed(text, cuts) else [text]
  {
    cuts := PartsAreCuts(text, 0);
    assert text[0..] == text;
    hide Parts, Trimmed, IsCut, InOrder;
  }

  /** The first character of the run of non-delimiters that ends at k. */
  function RunStart(text: string, k: nat): (i: nat)
    requires k < |text| && !Delimiter(text[k])
    ensures i <= k && (i == 0 || Delimiter(text[i - 1])) && forall l | i <= l <= k :: !Delimiter(text[l])
  {
    if k == 0 || Delimiter(text[k - 1]) then k else RunStart(text, k - 1)
  }

  /** A character is in no cut exactly if it is a delimiter that opens the text or follows another. */
  lemma LostIffExtraDelimiter(text: string, k: nat)
    requires k < |text|
    ensures (exists i: nat, j: nat :: IsCut(text, i, j) && i <= k < j)
            <==> !(Delimiter(text[k]) && (k == 0 || Delimiter(text[k - 1])))
  {
    if Delimiter(text[k]) && (k == 0 || Delimiter(text[k - 1])) {
      assert k > 0 ==> Delimiter(text[k - 1]);
      hide Delimiter;
    } else {
      var at := RunStart(text, if Delimiter(text[k]) then k - 1 else k);
      var end := at + MatchEnd(text[at..]);
      FirstCut(text, at, end);
      assert end == |text| || Delimiter(text[end - 1]);
      assert at <= k < end;
    }
  }

  // ---- chunks ----------------------------------------------------------------------

  /** A chunk: how many leading characters it inherited, and the sentence its own part
      begins with - `first` characters of `source`, from `offset` on. */
  datatype Piece = Piece(text: string, inherited: nat, first: nat, source: string, offset: nat)

  datatype Progress = Progress(done: seq<Piece>, current: Piece)

  const Blank := Piece("", 0, 0, "", 0)

  function SafeOverlap(chunkSize: int, overlap: int): int {
    if overlap > 0 then Min(overlap, chunkSize - 1) else 0
  }

  function Suffix(s: string, n: int): string
    requires n >= 0
  {
    s[|s| - Min(n, |s|)..]
  }

  function Flushed(p: Progress): seq<Piece> {
    if p.current.text != "" then p.done + [p.current] else p.done
  }

  /** Full pieces of what is left of an over-long sentence, and what to go on with. */
  function HardCut(done: seq<Piece>, source: string, offset: nat, size: int): Progress
    requires size > 0 && offset <= |source|
    decreases |source| - offset
  {
    var rest := source[offset..];
    if |rest| > size then HardCut(done + [Piece(rest[..size], 0, size, source, offset)], source, offset + size, size)
    else Progress(done, Piece(rest, 0, |rest|, source, offset))
  }

  /** The open chunk with one more sentence. */
  function Joined(c: Piece, sentence: string): Piece {
    if c.text == "" then Piece(sentence, 0, |sentence|, sentence, 0) else c.(text := c.text + sentence)
  }

  function Add(p: Progress, sentence: string, size: int, overlap: int): Progress
    requires size > 0 && 0 <= overlap < size
  {
    if |p.current.text| + |sentence| <= size then p.(current := Joined(p.current, sentence))
    else
      var done := Flushed(p);
      if |sentence| > size then HardCut(done, sentence, 0, size)
      else if done != [] && overlap > 0 then
        var kept := Suffix(done[|done| - 1].text, overlap);
        Progress(done, Piece(kept + sentence, |kept|, |sentence|, sentence, 0))
      else Progress(done, Piece(sentence, 0, |sentence|, sentence, 0))
  }

  function AddAll(sentences: seq<string>, size: int, overlap: int): Progress
    requires size > 0 && 0 <= overlap < size
  {
    if sentences == [] then Progress([], Blank)
    else Add(AddAll(sentences[..|sentences| - 1], size, overlap), sentences[|sentences| - 1], size, overlap)
  }

  function Pieces(text: string, chunkSize: int, overlap: int): seq<Piece>
    requires chunkSize > 0
  {
    Flushed(AddAll(Sentences(text), chunkSize, SafeOverlap(chunkSize, overlap)))
  }

  function Texts(ps: seq<Piece>): (ts: seq<string>)
    ensures |ts| == |ps| && forall i | 0 <= i < |ps| :: ts[i] == ps[i].text
  {
    seq(|ps|, i requires 0 <= i < |ps| => ps[i].text)
  }

  /** The loop's variables hold the texts of the progress made. */
  ghost predicate Represents(chunks: seq<string>, current: string, previousChunk: string, p: Progress) {
    && chunks == Texts(p.done)
    && current == p.current.text
    && previousChunk == (if p.done == [] then "" else p.done[|p.done| - 1].text)
    && forall q | q in p.done :: q.text != ""
  }

  /** The hard-cut loop: full chunks off the front, the remainder becomes the current chunk. */
  method CutHard(cut: seq<string>, sentence: string, size: int, ghost done: seq<Piece>)
    returns (chunks: seq<string>, current: string, previousChunk: string)
    requires size > 0 && |sentence| > size
    requires cut == Texts(done) && forall q | q in done :: q.text != ""
    ensures Represents(chunks, current, previousChunk, HardCut(done, sentence, 0, size))
  {
    chunks, previousChunk := cut, "";
    var rest := sentence;
    ghost var pieces, offset := done, 0;
    while |rest| > size
      invariant offset <= |sentence| && rest == sentence[offset..]
      invariant chunks == Texts(pieces)
      invariant HardCut(pieces, sentence, offset, size) == HardCut(done, sentence, 0, size)
      invariant |rest| <= size ==> pieces != [] && previousChunk == pieces[|pieces| - 1].text
      invariant forall q | q in pieces :: q.text != ""
      decreases |rest|
    {
      chunks := chunks + [rest[..size]];
      previousChunk := rest[..size];
      pieces := pieces + [Piece(rest[..size], 0, size, sentence, offset)];
      rest := rest[size..];
      offset := offset + size;
    }
    current := rest;
  }

  /** One round of the loop over the sentences. */
  method AddSentence(
    soFar: seq<string>, open: string, last: string, sentence: string, size: int, overlap: int, ghost p: Progress)
    returns (chunks: seq<string>, current: string, previousChunk: string)
    requires size > 0 && 0 <= overlap < size && Represents(soFar, open, last, p)
    ensures Represents(chunks, current, previousChunk, Add(p, sentence, size, overlap))
  {
    chunks, current, previousChunk := soFar, open, last;
    if |current| + |sentence| <= size {
      current := current + sentence;
      return;
    }
    if |current| > 0 {
      chunks := chunks + [current];
      previousChunk := current;
      current := "";
    }
    ghost var done := Flushed(p);
    assert chunks == Texts(done);
    assert previousChunk == if done == [] then "" else done[|done| - 1].text;
    if |sentence| > size {
      chunks, current, previousChunk := CutHard(chunks, sentence, size, done);
    } else if |previousChunk| > 0 && overlap > 0 {
      current := previousChunk[|previousChunk| - Min(overlap, |previousChunk|)..] + sentence;
    } else {
      current := sentence;
    }
  }

  method Split(text: string, chunkSize: int, overlap: int) returns (chunks: seq<string>)
    ensures Trim(text) == "" ==> chunks == []
    ensures Trim(text) != "" && chunkSize <= 0 ==> chunks == [text]
    ensures Trim(text) != "" && chunkSize > 0 ==> chunks == Texts(Pieces(text, chunkSize, overlap))
  {
    if Trim(text) == "" {
      return [];
    }
    if chunkSize <= 0 {
      return [text];
    }
    var safeOverlap := if overlap > 0 then Min(overlap, chunkSize - 1) else 0;
    var sentences := Sentences(text);
    assert SafeOverlap(chunkSize, overlap) == safeOverlap;
    assert Pieces(text, chunkSize, overlap) == Flushed(AddAll(sentences, chunkSize, safeOverlap));
    hide Sentences, Pieces, SafeOverlap, Trim, Add, Flushed;
    chunks := [];
    var current, previousChunk := "", "";
    assert Represents(chunks, current, previousChunk, AddAll(sentences[..0], chunkSize, safeOverlap));
    hide Represents;
    for i := 0 to |sentences|
      invariant Represents(chunks, current, previousChunk, AddAll(sentences[..i], chunkSize, safeOverlap))
    {
      ghost var p := AddAll(sentences[..i], chunkSize, safeOverlap);
      AddAllSnoc(sentences, i, chunkSize, safeOverlap);
      hide AddAll;
      chunks, current, previousChunk := AddSentence(chunks, current, previousChunk, sentences[i], chunkSize, safeOverlap, p);
    }
    assert sentences[..|sentences|] == sentences;
    hide AddAll;
    FlushRepresents(chunks, current, previousChunk, AddAll(sentences, chunkSize, safeOverlap));
    if |current| > 0 {
      chunks := chunks + [current];
    }
  }

  lemma AddAllSnoc(sentences: seq<string>, i: nat, size: int, overlap: int)
    requires i < |sentences| && size > 0 && 0 <= overlap < size
    ensures AddAll(sentences[..i + 1], size, overlap) == Add(AddAll(sentences[..i], size, overlap), sentences[i], size, overlap)
  {
    hide Add;
    assert sentences[..i + 1][..i] == sentences[..i];
  }

  /** Pushing what is still open makes the loop's variables the finished chunks. */
  lemma FlushRepresents(chunks: seq<string>, current: string, previousChunk: string, p: Progress)
    requires Represents(chunks, current, previousChunk, p)
    ensures Texts(Flushed(p)) == if |current| > 0 then chunks + [current] else chunks
  {
  }

  // ---- what the chunks are ------------------------------------------------------------

  /** What a piece adds to the text: all of it but what it inherited. */
  function OwnPart(p: Piece): string {
    if p.inherited <= |p.text| then p.text[p.inherited..] else ""
  }

  function Own(ps: seq<Piece>): string {
    if ps == [] then "" else Own(ps[..|ps| - 1]) + OwnPart(ps[|ps| - 1])
  }

  /** The piece begins with part of a sentence that does not fit into any chunk. */
  predicate Hard(p: Piece, size: int) {
    |p.source| > size
  }

  /** Piece `p` after the piece text `previous` (empty for none). */
  predicate Proper(p: Piece, previous: string, size: int, overlap: int)
    requires overlap >= 0
  {
    && p.inherited < |p.text| <= size + overlap
    && 0 < p.first && p.inherited + p.first <= |p.text|
    && p.inherited == (if Hard(p, size) then 0 else Min(overlap, |previous|))
    && p.offset + p.first <= |p.source|
    && p.text[p.inherited..p.inherited + p.first] == p.source[p.offset..p.offset + p.first]
    && (!Hard(p, size) ==> p.offset == 0 && p.first == |p.source|)
    && p.text[..p.inherited] == previous[|previous| - p.inherited..]
    && (|p.text| > size <==> p.inherited + p.first > size)
  }

  function Before(ps: seq<Piece>, i: nat): string
    requires i <= |ps|
  {
    if i == 0 then "" else ps[i - 1].text
  }

  predicate AllProper(ps: seq<Piece>, size: int, overlap: int)
    requires overlap >= 0
  {
    forall i | 0 <= i < |ps| :: Proper(ps[i], Before(ps, i), size, overlap)
  }

  predicate ProperProgress(p: Progress, size: int, overlap: int)
    requires overlap >= 0
  {
    && AllProper(p.done, size, overlap)
    && ((p.current == Blank && p.done == []) || Proper(p.current, Before(p.done, |p.done|), size, overlap))
  }

  function OwnOf(p: Progress): string {
    Own(p.done) + OwnPart(p.current)
  }

  lemma OwnSnoc(ps: seq<Piece>, p: Piece)
    ensures Own(ps + [p]) == Own(ps) + OwnPart(p)
  {
    assert (ps + [p])[..|ps|] == ps;
  }

  lemma AppendedProper(ps: seq<Piece>, p: Piece, size: int, overlap: int)
    requires overlap >= 0
    ensures AllProper(ps, size, overlap) && Proper(p, Before(ps, |ps|), size, overlap) ==> AllProper(ps + [p], size, overlap)
  {
    hide Proper;
    if AllProper(ps, size, overlap) && Proper(p, Before(ps, |ps|), size, overlap) {
      var longer := ps + [p];
      forall i | 0 <= i < |longer| ensures Proper(longer[i], Before(longer, i), size, overlap) {
        BeforeStays(ps, p, i);
        hide Before;
        assert longer[i] == if i < |ps| then ps[i] else p;
      }
    }
  }

  lemma BeforeStays(ps: seq<Piece>, p: Piece, i: nat)
    requires i <= |ps|
    ensures Before(ps + [p], i) == Before(ps, i)
  {
  }

  // ---- a hard cut ---------------------------------------------------------------------

  lemma CutPieceIsProper(source: string, offset: nat, n: nat, previous: string, size: int, overlap: int)
    requires |source| > size && 0 < n <= size && offset + n <= |source| && overlap >= 0
    ensures Proper(Piece(source[offset..offset + n], 0, n, source, offset), previous, size, overlap)
    ensures OwnPart(Piece(source[offset..offset + n], 0, n, source, offset)) == source[offset..offset + n]
  {
    var text := source[offset..offset + n];
    assert Suffix(previous, 0) == "" && text[..0] == "" && text[0..0 + n] == text && text[0..] == text;
  }

  /** One turn of the hard-cut loop, or its end. */
  lemma HardCutTurns(done: seq<Piece>, source: string, offset: nat, size: int)
    requires size > 0 && offset < |source|
    ensures HardCut(done, source, offset, size)
         == if |source| - offset > size
            then HardCut(done + [Piece(source[offset..offset + size], 0, size, source, offset)], source, offset + size, size)
            else Progress(done, Piece(source[offset..|source|], 0, |source| - offset, source, offset))
  {
    assert |source[offset..]| == |source| - offset;
    if |source| - offset > size {
      assert source[offset..][..size] == source[offset..offset + size];
    }
  }

  lemma {:induction false} HardCutIsProper(done: seq<Piece>, source: string, offset: nat, size: int, overlap: int)
    requires size > 0 && 0 <= overlap < size && |source| > size && offset < |source| && AllProper(done, size, overlap)
    ensures ProperProgress(HardCut(done, source, offset, size), size, overlap)
    ensures OwnOf(HardCut(done, source, offset, size)) == Own(done) + source[offset..]
    decreases |source| - offset
  {
    hide *;
    HardCutTurns(done, source, offset, size);
    if |source| - offset > size {
      var cut := Piece(source[offset..offset + size], 0, size, source, offset);
      CutPieceIsProper(source, offset, size, Before(done, |done|), size, overlap);
      AppendedProper(done, cut, size, overlap);
      OwnSnoc(done, cut);
      HardCutIsProper(done + [cut], source, offset + size, size, overlap);
      Rejoined(Own(done), source, offset, offset + size);
    } else {
      CutPieceIsProper(source, offset, |source| - offset, Before(done, |done|), size, overlap);
      ProgressOf(done, Piece(source[offset..|source|], 0, |source| - offset, source, offset), size, overlap);
      assert source[offset..|source|] == source[offset..];
    }
  }

  lemma ProgressOf(done: seq<Piece>, c: Piece, size: int, overlap: int)
    requires overlap >= 0
    ensures AllProper(done, size, overlap) && Proper(c, Before(done, |done|), size, overlap)
            ==> ProperProgress(Progress(done, c), size, overlap)
    ensures OwnOf(Progress(done, c)) == Own(done) + OwnPart(c)
  {
    hide AllProper, Proper, Own, OwnPart;
  }

  lemma Rejoined(a: string, s: string, i: nat, j: nat)
    requires i <= j <= |s|
    ensures a + s[i..j] + s[j..] == a + s[i..]
  {
    assert s[i..j] + s[j..] == s[i..];
    assert a + (s[i..j] + s[j..]) == a + s[i..j] + s[j..];
  }

  // ---- one sentence more -----------------------------------------------------------------

  lemma FlushedIsProper(p: Progress, size: int, overlap: int)
    requires overlap >= 0 && ProperProgress(p, size, overlap)
    ensures AllProper(Flushed(p), size, overlap) && Own(Flushed(p)) == OwnOf(p)
  {
    if p.current.text == "" {
      assert p.current == Blank && OwnPart(Blank) == "";
    } else {
      hide Proper, AllProper, Own, OwnPart, Before;
      AppendedProper(p.done, p.current, size, overlap);
      OwnSnoc(p.done, p.current);
    }
  }

  lemma TailOfJoin(a: string, s: string, i: nat)
    requires i <= |a|
    ensures (a + s)[i..] == a[i..] + s && (a + s)[..i] == a[..i]
  {
  }

  lemma LongerPieceIsProper(c: Piece, longer: Piece, s: string, previous: string, size: int, overlap: int)
    requires 0 <= overlap && Proper(c, previous, size, overlap)
    requires longer == c.(text := c.text + s) && |longer.text| <= size
    ensures Proper(longer, previous, size, overlap) && OwnPart(longer) == OwnPart(c) + s
  {
    var n := c.inherited + c.first;
    assert longer.text[c.inherited..n] == c.text[c.inherited..n];
    TailOfJoin(c.text, s, c.inherited);
    hide Suffix;
  }

  /** A sentence that still fits joins the current chunk. */
  lemma JoinIsProper(p: Progress, s: string, size: int, overlap: int)
    requires size > 0 && 0 <= overlap < size && s != "" && ProperProgress(p, size, overlap)
    requires |p.current.text| + |s| <= size
    ensures ProperProgress(Add(p, s, size, overlap), size, overlap)
    ensures OwnOf(Add(p, s, size, overlap)) == OwnOf(p) + s
  {
    hide *;
    AddJoins(p, s, size, overlap);
    if p.current.text == "" {
      NothingYet(p, s, size, overlap);
    } else {
      var c, c' := p.current, Joined(p.current, s);
      ProperWhenOpen(p, size, overlap);
      LongerPieceIsProper(c, c', s, Before(p.done, |p.done|), size, overlap);
      ProgressOf(p.done, c', size, overlap);
      ProgressOf(p.done, c, size, overlap);
      assert p == Progress(p.done, c);
      assert Own(p.done) + (OwnPart(c) + s) == Own(p.done) + OwnPart(c) + s;
    }
  }

  lemma AddJoins(p: Progress, s: string, size: int, overlap: int)
    requires size > 0 && 0 <= overlap < size && |p.current.text| + |s| <= size
    ensures Add(p, s, size, overlap) == Progress(p.done, Joined(p.current, s))
    ensures p.current.text != "" ==> Joined(p.current, s) == p.current.(text := p.current.text + s)
  {
  }

  lemma ProperWhenOpen(p: Progress, size: int, overlap: int)
    requires overlap >= 0 && ProperProgress(p, size, overlap) && p.current.text != ""
    ensures AllProper(p.done, size, overlap) && Proper(p.current, Before(p.done, |p.done|), size, overlap)
  {
    hide AllProper, Proper, Before;
  }

  lemma NothingYet(p: Progress, s: string, size: int, overlap: int)
    requires size > 0 && 0 <= overlap < size && 0 < |s| <= size && ProperProgress(p, size, overlap) && p.current.text == ""
    ensures ProperProgress(Progress(p.done, Joined(p.current, s)), size, overlap)
    ensures OwnOf(Progress(p.done, Joined(p.current, s))) == OwnOf(p) + s
  {
    assert p == Progress([], Blank) && OwnPart(Blank) == "" && Own([]) == "" && Before([], 0) == "";
    assert Joined(Blank, s) == Piece(s, 0, |s|, s, 0) && Suffix("", overlap) == "";
    assert OwnOf(p) == "";
    assert AllProper([], size, overlap);
    hide *;
    OpenedPieceIsProper("", s, "", size, overlap);
    assert "" + s == s;
    ProgressOf([], Piece(s, 0, |s|, s, 0), size, overlap);
  }

  lemma OpenedPieceIsProper(kept: string, s: string, previous: string, size: int, overlap: int)
    requires 0 < |s| <= size && 0 <= overlap && kept == Suffix(previous, overlap)
    ensures Proper(Piece(kept + s, |kept|, |s|, s, 0), previous, size, overlap)
    ensures OwnPart(Piece(kept + s, |kept|, |s|, s, 0)) == s
  {
    var text := kept + s;
    assert text[|kept|..] == s && text[..|kept|] == kept && text[|kept|..|kept| + |s|] == s && s[0..0 + |s|] == s;
    assert Suffix(previous, |kept|) == kept;
    hide Suffix;
  }

  /** A sentence that does not fit opens a new chunk behind the overlap. */
  lemma OpenIsProper(done: seq<Piece>, s: string, size: int, overlap: int)
    requires 0 < |s| <= size && 0 <= overlap < size && AllProper(done, size, overlap)
    ensures var kept := Suffix(Before(done, |done|), overlap);
            var p := Progress(done, Piece(kept + s, |kept|, |s|, s, 0));
            ProperProgress(p, size, overlap) && OwnOf(p) == Own(done) + s
  {
    hide *;
    var previous := Before(done, |done|);
    OpenedPieceIsProper(Suffix(previous, overlap), s, previous, size, overlap);
    ProgressOf(done, Piece(Suffix(previous, overlap) + s, |Suffix(previous, overlap)|, |s|, s, 0), size, overlap);
  }

  /** Which of the three ways a sentence that does not fit is taken in. */
  lemma AddOpens(p: Progress, s: string, size: int, overlap: int)
    requires size > 0 && 0 <= overlap < size && |p.current.text| + |s| > size
    ensures var done := Flushed(p);
            var kept := Suffix(Before(done, |done|), overlap);
            Add(p, s, size, overlap)
            == if |s| > size then HardCut(done, s, 0, size) else Progress(done, Piece(kept + s, |kept|, |s|, s, 0))
  {
    var done := Flushed(p);
    if |s| <= size && (done == [] || overlap == 0) {
      var kept := Suffix(Before(done, |done|), overlap);
      assert kept == "" && kept + s == s;
    }
    hide HardCut;
  }

  lemma AddIsProper(p: Progress, s: string, size: int, overlap: int)
    requires size > 0 && 0 <= overlap < size && s != "" && ProperProgress(p, size, overlap)
    ensures ProperProgress(Add(p, s, size, overlap), size, overlap)
    ensures OwnOf(Add(p, s, size, overlap)) == OwnOf(p) + s
  {
    hide *;
    if |p.current.text| + |s| <= size {
      JoinIsProper(p, s, size, overlap);
    } else {
      AddOpens(p, s, size, overlap);
      FlushedIsProper(p, size, overlap);
      if |s| > size {
        HardCutIsProper(Flushed(p), s, 0, size, overlap);
        assert s[0..] == s;
      } else {
        OpenIsProper(Flushed(p), s, size, overlap);
      }
    }
  }

  lemma {:induction false} AddAllIsProper(sentences: seq<string>, size: int, overlap: int)
    requires size > 0 && 0 <= overlap < size && forall s | s in sentences :: s != ""
    ensures ProperProgress(AddAll(sentences, size, overlap), size, overlap)
    ensures OwnOf(AddAll(sentences, size, overlap)) == Concat(sentences)
    decreases |sentences|
  {
    if sentences != [] {
      var init, last := sentences[..|sentences| - 1], sentences[|sentences| - 1];
      assert sentences == init + [last] && last in sentences;
      assert forall s | s in init :: s in sentences;
      AddAllIsProper(init, size, overlap);
      AddIsProper(AddAll(init, size, overlap), last, size, overlap);
      ConcatSnoc(init, last);
    }
  }

  /**
   * Nothing is lost and nothing is duplicated beyond the overlap: chunks
   * without their inherited prefixes are the sentences in order.  A chunk that
   * begins with a sentence inherits the last min(overlap, length) characters of
   * the chunk before it, one that continues a hard-cut sentence inherits none,
   * no chunk is empty, and none is longer than chunkSize plus overlap - longer
   * than chunkSize exactly when its prefix and first sentence together are.
   */
  lemma ChunksConserveSentences(text: string, chunkSize: int, overlap: int)
    requires chunkSize > 0 && Trim(text) != ""
    ensures var ps := Pieces(text, chunkSize, overlap);
            && AllProper(ps, chunkSize, if overlap > 0 then Min(overlap, chunkSize - 1) else 0) && Own(ps) == Concat(Sentences(text))
            && SourcesAmong(ps, Sentences(text))
  {
    PartsAreNonEmpty(text);
    var safe := SafeOverlap(chunkSize, overlap);
    AddAllIsProper(Sentences(text), chunkSize, safe);
    FlushedIsProper(AddAll(Sentences(text), chunkSize, safe), chunkSize, safe);
    SourcesAreSentences(Sentences(text), chunkSize, safe);
    hide AllProper, Own, AddAll, Sentences;
  }

  /** From the document to the chunks, every character that is not white space or a delimiter survives in order. */
  lemma ChunksKeepSubstance(text: string, chunkSize: int, overlap: int)
    requires chunkSize > 0 && Trim(text) != ""
    ensures Substance(Own(Pieces(text, chunkSize, overlap))) == Substance(text)
  {
    ChunksConserveSentences(text, chunkSize, overlap);
    PartsKeepSubstance(text);
    assert Concat([text]) == text + "" == text;
    hide Pieces, Own, Parts, Substance, Concat, AllProper;
  }

  // ---- no room is wasted ---------------------------------------------------------------

  /** Chunk p only begins because its sentence no longer fitted into chunk q, and goes on where a full cut ended. */
  predicate FollowsOn(q: Piece, p: Piece, size: int) {
    && |q.text| + |p.source| > size
    && (p.offset > 0 ==> |q.text| == size && p.source == q.source && p.offset == q.offset + size)
  }

  predicate Greedy(ps: seq<Piece>, size: int) {
    forall i | 1 <= i < |ps| :: FollowsOn(ps[i - 1], ps[i], size)
  }

  lemma GreedySnoc(ps: seq<Piece>, p: Piece, size: int)
    requires Greedy(ps, size) && (ps != [] ==> FollowsOn(ps[|ps| - 1], p, size))
    ensures Greedy(ps + [p], size)
  {
    hide FollowsOn;
  }

  lemma {:induction false} HardCutIsGreedy(done: seq<Piece>, source: string, offset: nat, size: int)
    requires size > 0 && |source| > size && offset < |source| && Greedy(done, size)
    requires offset > 0 ==>
               done != [] && |done[|done| - 1].text| == size && done[|done| - 1].source == source
               && done[|done| - 1].offset + size == offset
    ensures Greedy(Flushed(HardCut(done, source, offset, size)), size)
    ensures HardCut(done, source, offset, size).current.text != ""
    decreases |source| - offset
  {
    HardCutTurns(done, source, offset, size);
    hide HardCut, Greedy;
    if |source| - offset > size {
      var cut := Piece(source[offset..offset + size], 0, size, source, offset);
      GreedySnoc(done, cut, size);
      HardCutIsGreedy(done + [cut], source, offset + size, size);
    } else {
      GreedySnoc(done, Piece(source[offset..|source|], 0, |source| - offset, source, offset), size);
    }
  }

  lemma AddIsGreedy(p: Progress, s: string, size: int, overlap: int)
    requires size > 0 && 0 <= overlap < size && s != ""
    requires Greedy(Flushed(p), size) && (p.current.text == "" ==> p.done == [])
    ensures Greedy(Flushed(Add(p, s, size, overlap)), size) && Add(p, s, size, overlap).current.text != ""
  {
    hide HardCut;
    if |p.current.text| + |s| <= size {
      if p.current.text != "" {
        JoinedIsGreedy(p.done, p.current, s, size);
      }
    } else if |s| > size {
      HardCutIsGreedy(Flushed(p), s, 0, size);
    } else {
      hide Greedy;
      GreedySnoc(Flushed(p), Add(p, s, size, overlap).current, size);
    }
  }

  lemma JoinedIsGreedy(done: seq<Piece>, c: Piece, s: string, size: int)
    requires c.text != "" && Greedy(done + [c], size)
    ensures Greedy(done + [Joined(c, s)], size)
  {
    var before, after := done + [c], done + [Joined(c, s)];
    forall i | 1 <= i < |after| ensures FollowsOn(after[i - 1], after[i], size) {
      assert FollowsOn(before[i - 1], before[i], size);
    }
  }

  lemma {:induction false} AddAllIsGreedy(sentences: seq<string>, size: int, overlap: int)
    requires size > 0 && 0 <= overlap < size && forall s | s in sentences :: s != ""
    ensures var p := AddAll(sentences, size, overlap);
            Greedy(Flushed(p), size) && (p.current.text == "" ==> p.done == [])
    decreases |sentences|
  {
    if sentences != [] {
      var init, last := sentences[..|sentences| - 1], sentences[|sentences| - 1];
      assert last in sentences && forall s | s in init :: s in sentences;
      AddAllIsGreedy(init, size, overlap);
      hide Greedy, Add, Flushed;
      AddIsGreedy(AddAll(init, size, overlap), last, size, overlap);
    }
  }

  /** Every chunk after the first begins with a sentence that did not fit any more, or behind a cut of exactly chunkSize characters. */
  lemma ChunksAreGreedy(text: string, chunkSize: int, overlap: int)
    requires chunkSize > 0 && Trim(text) != ""
    ensures Greedy(Pieces(text, chunkSize, overlap), chunkSize)
  {
    PartsAreNonEmpty(text);
    AddAllIsGreedy(Sentences(text), chunkSize, SafeOverlap(chunkSize, overlap));
    hide Greedy, AddAll, Flushed;
  }

  // ---- when the overlap is inherited ------------------------------------------------------

  /** Finished chunks keep their sentences, and every new one begins with the sentence added. */
  lemma SourcesStay(p: Progress, s: string, size: int, overlap: int)
    requires size > 0 && 0 <= overlap < size && s != ""
    ensures var before, after := Flushed(p), Flushed(Add(p, s, size, overlap));
            && |before| <= |after|
            && (forall i | 0 <= i < |before| :: after[i].source == before[i].source)
            && (forall i | |before| <= i < |after| :: after[i].source == s)
            && (|s| > size ==> |before| + 2 <= |after|)
  {
    if |p.current.text| + |s| > size && |s| > size {
      CutSources(Flushed(p), s, 0, size);
      assert |s[0..]| > size;
      CutLeavesTwo(Flushed(p), s, size);
    }
  }

  lemma {:induction false} CutSources(done: seq<Piece>, source: string, offset: nat, size: int)
    requires size > 0 && offset < |source|
    ensures var after := Flushed(HardCut(done, source, offset, size));
            && |done| < |after| && after[..|done|] == done
            && forall i | |done| <= i < |after| :: after[i].source == source
    decreases |source| - offset
  {
    if |source[offset..]| > size {
      var cut := Piece(source[offset..][..size], 0, size, source, offset);
      CutSources(done + [cut], source, offset + size, size);
      var after := Flushed(HardCut(done + [cut], source, offset + size, size));
      assert after[..|done|] == after[..|done + [cut]|][..|done|];
      assert after[|done|] == after[..|done + [cut]|][|done|];
    }
  }

  lemma CutLeavesTwo(done: seq<Piece>, source: string, size: int)
    requires size > 0 && |source| > size
    ensures |done| + 2 <= |Flushed(HardCut(done, source, 0, size))|
  {
    var cut := Piece(source[0..][..size], 0, size, source, 0);
    CutSources(done + [cut], source, size, size);
    hide Flushed;
  }

  predicate SourcesAmong(ps: seq<Piece>, sentences: seq<string>) {
    forall i | 0 <= i < |ps| :: ps[i].source in sentences
  }

  predicate SomeLong(sentences: seq<string>, size: int) {
    exists s | s in sentences :: |s| > size
  }

  /** A chunk after the first is cut out of an over-long sentence. */
  predicate LaterHard(ps: seq<Piece>, size: int) {
    exists i | 1 <= i < |ps| :: Hard(ps[i], size)
  }

  lemma MoreSources(before: seq<Piece>, after: seq<Piece>, init: seq<string>, last: string, size: int)
    requires SourcesAmong(before, init) && (SomeLong(init, size) ==> LaterHard(before, size))
    requires |before| <= |after| && forall i | 0 <= i < |before| :: after[i].source == before[i].source
    requires forall i | |before| <= i < |after| :: after[i].source == last
    requires |last| > size ==> |before| + 2 <= |after|
    ensures SourcesAmong(after, init + [last])
    ensures SomeLong(init + [last], size) ==> LaterHard(after, size)
  {
    if |last| > size {
      assert Hard(after[|before| + 1], size);
    } else if SomeLong(init, size) {
      var i :| 1 <= i < |before| && Hard(before[i], size);
      assert Hard(after[i], size);
    }
  }

  /** The sentences chunks begin with are the text's, and an over-long one begins at least one chunk after the first. */
  lemma {:induction false} SourcesAreSentences(sentences: seq<string>, size: int, overlap: int)
    requires size > 0 && 0 <= overlap < size && forall s | s in sentences :: s != ""
    ensures var ps := Flushed(AddAll(sentences, size, overlap));
            SourcesAmong(ps, sentences) && (SomeLong(sentences, size) ==> LaterHard(ps, size))
    decreases |sentences|
  {
    if sentences != [] {
      var init, last := sentences[..|sentences| - 1], sentences[|sentences| - 1];
      assert sentences == init + [last] && last in sentences;
      assert forall s | s in init :: s in sentences;
      var before, after := Flushed(AddAll(init, size, overlap)), Flushed(AddAll(sentences, size, overlap));
      assert after == Flushed(Add(AddAll(init, size, overlap), last, size, overlap));
      hide AddAll, Add, Flushed, SourcesAmong, SomeLong, LaterHard;
      SourcesAreSentences(init, size, overlap);
      SourcesStay(AddAll(init, size, overlap), last, size, overlap);
      MoreSources(before, after, init, last, size);
    }
  }

  predicate InheritsOverlap(ps: seq<Piece>, overlap: int) {
    forall i | 1 <= i < |ps| :: ps[i].inherited == Min(overlap, |ps[i - 1].text|)
  }

  /**
   * Exactly when every chunk after the first inherits its overlap, for a
   * positive overlap: no sentence of the text is longer than the chunk size.
   */
  lemma OverlapInheritedIffNoLongSentence(text: string, chunkSize: int, overlap: int)
    requires chunkSize > 1 && Trim(text) != "" && overlap > 0
    ensures InheritsOverlap(Pieces(text, chunkSize, overlap), Min(overlap, chunkSize - 1))
            <==> forall s | s in Sentences(text) :: |s| <= chunkSize
  {
    var ps, safe := Pieces(text, chunkSize, overlap), SafeOverlap(chunkSize, overlap);
    ChunksConserveSentences(text, chunkSize, overlap);
    PartsAreNonEmpty(text);
    SourcesAreSentences(Sentences(text), chunkSize, safe);
    assert ps == Flushed(AddAll(Sentences(text), chunkSize, safe));
    assert SomeLong(Sentences(text), chunkSize) <==> !(forall s | s in Sentences(text) :: |s| <= chunkSize);
    hide *;
    InheritsIffNoneLong(ps, Sentences(text), chunkSize, safe);
  }

  lemma InheritsIffNoneLong(ps: seq<Piece>, sentences: seq<string>, size: int, overlap: int)
    requires overlap > 0 && AllProper(ps, size, overlap) && SourcesAmong(ps, sentences)
    requires SomeLong(sentences, size) ==> LaterHard(ps, size)
    ensures InheritsOverlap(ps, overlap) <==> !SomeLong(sentences, size)
  {
    hide AllProper;
    if SomeLong(sentences, size) {
      var i :| 1 <= i < |ps| && Hard(ps[i], size);
      InheritsUnlessHard(ps, size, overlap, i);
    } else {
      forall i | 1 <= i < |ps| ensures ps[i].inherited == Min(overlap, |ps[i - 1].text|) {
        assert ps[i].source in sentences;
        InheritsUnlessHard(ps, size, overlap, i);
      }
    }
  }

  lemma InheritsUnlessHard(ps: seq<Piece>, size: int, overlap: int, i: nat)
    requires overlap > 0 && AllProper(ps, size, overlap) && 1 <= i < |ps|
    ensures ps[i].inherited == Min(overlap, |ps[i - 1].text|) <==> !Hard(ps[i], size)
  {
    assert Proper(ps[i], Before(ps, i), size, overlap);
    assert Proper(ps[i - 1], Before(ps, i - 1), size, overlap);
    hide AllProper, Suffix;
  }

  // ---- when a chunk is longer than the chunk size -----------------------------------------------

  /** What the loop's decisions depend on: the lengths of the last finished and of the
      open chunk, and whether a chunk has become too long. */
  datatype Lengths = Lengths(previous: nat, current: nat, tooLong: bool)

  /** One more sentence of n characters. */
  function Grow(l: Lengths, n: nat, size: int, overlap: int): Lengths
    requires size > 0 && overlap >= 0
  {
    if l.current + n <= size then l.(current := l.current + n)
    else
      var previous := if l.current > 0 then l.current else l.previous;
      if n > size then Lengths(size, Remainder(n, size), l.tooLong)
      else
        var kept := Min(overlap, previous);
        Lengths(previous, kept + n, l.tooLong || kept + n > size)
  }

  /** What hard cutting leaves of n characters. */
  function Remainder(n: nat, size: int): nat
    requires size > 0
  {
    if n > size then Remainder(n - size, size) else n
  }

  function GrowAll(ns: seq<nat>, size: int, overlap: int): Lengths
    requires size > 0 && overlap >= 0
  {
    if ns == [] then Lengths(0, 0, false)
    else Grow(GrowAll(ns[..|ns| - 1], size, overlap), ns[|ns| - 1], size, overlap)
  }

  predicate SomeTooLong(ps: seq<Piece>, size: int) {
    exists i | 0 <= i < |ps| :: |ps[i].text| > size
  }

  /** The lengths follow the pieces. */
  predicate Follows(l: Lengths, p: Progress, size: int) {
    && l.previous == |Before(p.done, |p.done|)|
    && l.current == |p.current.text|
    && (l.tooLong <==> SomeTooLong(p.done, size) || |p.current.text| > size)
    && (p.current.text == "" ==> p.done == [])
  }

  lemma SomeTooLongSnoc(ps: seq<Piece>, p: Piece, size: int)
    ensures SomeTooLong(ps + [p], size) <==> SomeTooLong(ps, size) || |p.text| > size
  {
    var longer := ps + [p];
    if SomeTooLong(ps, size) {
      var i :| 0 <= i < |ps| && |ps[i].text| > size;
      assert |longer[i].text| > size;
    } else if |p.text| > size {
      assert |longer[|ps|].text| > size;
    }
  }

  lemma {:induction false} CutFollows(done: seq<Piece>, source: string, offset: nat, size: int)
    requires size > 0 && offset < |source|
    requires offset > 0 ==> done != [] && |done[|done| - 1].text| == size
    requires offset == 0 ==> |source| > size
    ensures var p := HardCut(done, source, offset, size);
            && |Before(p.done, |p.done|)| == size && |p.current.text| == Remainder(|source| - offset, size)
            && 0 < |p.current.text| <= size
            && (SomeTooLong(p.done, size) <==> SomeTooLong(done, size))
    decreases |source| - offset
  {
    if |source[offset..]| > size {
      var cut := Piece(source[offset..][..size], 0, size, source, offset);
      SomeTooLongSnoc(done, cut, size);
      hide SomeTooLong;
      CutFollows(done + [cut], source, offset + size, size);
    }
  }

  lemma GrowFollows(l: Lengths, p: Progress, s: string, size: int, overlap: int)
    requires size > 0 && 0 <= overlap < size && s != "" && Follows(l, p, size)
    ensures Follows(Grow(l, |s|, size, overlap), Add(p, s, size, overlap), size)
  {
    SomeTooLongSnoc(p.done, p.current, size);
    if |p.current.text| + |s| <= size {
      hide SomeTooLong;
    } else if |s| > size {
      CutFollows(Flushed(p), s, 0, size);
      hide SomeTooLong, HardCut;
    } else {
      hide SomeTooLong;
      var done := Flushed(p);
      assert |Suffix(Before(done, |done|), overlap)| == Min(overlap, |Before(done, |done|)|);
    }
  }

  function LengthsOf(sentences: seq<string>): (ns: seq<nat>)
    ensures |ns| == |sentences| && forall i | 0 <= i < |ns| :: ns[i] == |sentences[i]|
  {
    seq(|sentences|, i requires 0 <= i < |sentences| => |sentences[i]|)
  }

  lemma {:induction false} GrowAllFollows(sentences: seq<string>, size: int, overlap: int)
    requires size > 0 && 0 <= overlap < size && forall s | s in sentences :: s != ""
    ensures Follows(GrowAll(LengthsOf(sentences), size, overlap), AddAll(sentences, size, overlap), size)
    decreases |sentences|
  {
    if sentences != [] {
      hide Follows, Grow, Add, LengthsOf;
      var init, last := sentences[..|sentences| - 1], sentences[|sentences| - 1];
      assert last in sentences && forall s | s in init :: s in sentences;
      assert LengthsOf(sentences)[..|sentences| - 1] == LengthsOf(init);
      GrowAllFollows(init, size, overlap);
      GrowFollows(GrowAll(LengthsOf(init), size, overlap), AddAll(init, size, overlap), last, size, overlap);
    }
  }

  /**
   * Exactly when a text has a chunk longer than the chunk size, from the
   * lengths of its sentences alone: some sentence that fits a chunk of its own
   * opens one behind an overlap that leaves it no room.
   */
  lemma ChunkTooLongIff(text: string, chunkSize: int, overlap: int)
    requires chunkSize > 0 && Trim(text) != ""
    ensures SomeTooLong(Pieces(text, chunkSize, overlap), chunkSize)
            <==> GrowAll(LengthsOf(Sentences(text)), chunkSize, if overlap > 0 then Min(overlap, chunkSize - 1) else 0).tooLong
  {
    var safe := SafeOverlap(chunkSize, overlap);
    var p := AddAll(Sentences(text), chunkSize, safe);
    PartsAreNonEmpty(text);
    GrowAllFollows(Sentences(text), chunkSize, safe);
    SomeTooLongSnoc(p.done, p.current, chunkSize);
    hide SomeTooLong, GrowAll, AddAll, Sentences;
  }

  /** No sentence that fits a chunk lacks the room for an overlap before it. */
  predicate RoomForOverlap(ns: seq<nat>, size: int, overlap: int) {
    forall i | 0 <= i < |ns| :: ns[i] <= size ==> ns[i] + overlap <= size
  }

  lemma {:induction false} RoomKeepsSize(ns: seq<nat>, size: int, overlap: int)
    requires size > 0 && 0 <= overlap && RoomForOverlap(ns, size, overlap)
    ensures !GrowAll(ns, size, overlap).tooLong
    decreases |ns|
  {
    if ns != [] {
      var init, last := ns[..|ns| - 1], ns[|ns| - 1];
      forall i | 0 <= i < |init| ensures init[i] <= size ==> init[i] + overlap <= size {
        assert init[i] == ns[i];
      }
      assert last <= size ==> last + overlap <= size;
      RoomKeepsSize(init, size, overlap);
    }
  }

  /** Enough to keep the promise for a text: every sentence that fits a chunk fits one behind an overlap. */
  lemma RoomForOverlapKeepsPromise(text: string, chunkSize: int, overlap: int)
    requires chunkSize > 0 && Trim(text) != ""
    requires forall s | s in Sentences(text) && |s| <= chunkSize ::
               |s| + (if overlap > 0 then Min(overlap, chunkSize - 1) else 0) <= chunkSize
    ensures forall p | p in Pieces(text, chunkSize, overlap) :: |p.text| <= chunkSize
  {
    var ns := LengthsOf(Sentences(text));
    forall i | 0 <= i < |ns| ensures ns[i] <= chunkSize ==> ns[i] + SafeOverlap(chunkSize, overlap) <= chunkSize {
      assert Sentences(text)[i] in Sentences(text);
    }
    RoomKeepsSize(ns, chunkSize, SafeOverlap(chunkSize, overlap));
    ChunkTooLongIff(text, chunkSize, overlap);
    hide Pieces, Sentences, GrowAll, SafeOverlap;
  }

  /** Filling a chunk with sentences of one length until the next one overflows the chunk behind it. */
  lemma {:induction false} FillUntilTooLong(ns: seq<nat>, n: nat, size: int, overlap: int) returns (more: seq<nat>)
    requires 0 < n <= size && n + overlap > size && 0 <= overlap
    requires ns != [] && (forall i | 0 <= i < |ns| :: ns[i] == n)
    requires var l := GrowAll(ns, size, overlap); n <= l.current <= size && !l.tooLong
    ensures (forall i | 0 <= i < |more| :: more[i] == n) && GrowAll(more, size, overlap).tooLong
    decreases size - GrowAll(ns, size, overlap).current
  {
    more := ns + [n];
    assert more[..|more| - 1] == ns;
    if GrowAll(ns, size, overlap).current + n <= size {
      more := FillUntilTooLong(more, n, size, overlap);
    }
  }

  ghost predicate NeverTooLong(longest: nat, size: int, overlap: int)
    requires size > 0 && overlap >= 0
  {
    forall ns: seq<nat> | (forall i | 0 <= i < |ns| :: 0 < ns[i] <= longest) :: !GrowAll(ns, size, overlap).tooLong
  }

  /**
   * The promise for all texts of sentences up to a length that fits a chunk:
   * it is kept if and only if that length and the overlap together fit.
   */
  lemma PromiseKeptIff(longest: nat, size: int, overlap: int)
    requires 0 < longest <= size && 0 <= overlap < size
    ensures NeverTooLong(longest, size, overlap) <==> longest + overlap <= size
  {
    if longest + overlap <= size {
      forall ns: seq<nat> | (forall i | 0 <= i < |ns| :: 0 < ns[i] <= longest)
        ensures !GrowAll(ns, size, overlap).tooLong
      {
        RoomKeepsSize(ns, size, overlap);
      }
    } else {
      assert [longest][..0] == [];
      assert GrowAll([longest], size, overlap) == Lengths(0, longest, false);
      var ns := FillUntilTooLong([longest], longest, size, overlap);
      assert forall i | 0 <= i < |ns| :: 0 < ns[i] <= longest;
    }
  }

  lemma TrimLineEnd(s: string)
    requires s != "" && !IsSpace(s[0]) && !IsSpace(s[|s| - 1])
    ensures Trim(s + "\n") == s
  {
    var t := s + "\n";
    assert t[0] == s[0] && t[|t| - 1] == '\n' && t[..|t| - 1] == s;
    assert TrimStart(t) == t && TrimEnd(t) == TrimEnd(s) == s;
  }

  lemma {:induction false} RunOf(s: string, rest: string)
    requires forall i | 0 <= i < |s| :: !Delimiter(s[i])
    requires rest == "" || Delimiter(rest[0])
    ensures RunLength(s + rest) == |s|
    decreases |s|
  {
    if s == "" {
      assert s + rest == rest;
    } else {
      assert (s + rest)[1..] == s[1..] + rest;
      RunOf(s[1..], rest);
    }
  }

  /** A trimmed line of text without delimiters. */
  predicate IsLine(s: string) {
    s != "" && !IsSpace(s[0]) && !IsSpace(s[|s| - 1]) && forall i | 0 <= i < |s| :: !Delimiter(s[i])
  }

  /** Such a line is one sentence together with the visible delimiter that ends it. */
  lemma RunIsSentence(s: string, d: char, rest: string)
    requires IsLine(s) && Delimiter(d) && !IsSpace(d)
    ensures Parts(s + [d] + rest) == [s + [d]] + Parts(rest)
  {
    var text := s + ([d] + rest);
    assert s + [d] + rest == text;
    RunOf(s, [d] + rest);
    assert text[0] == s[0] && !Delimiter(s[0]);
    assert text[..|s| + 1] == s + [d] && text[|s| + 1..] == rest;
    TrimTight(s + [d]);
    hide Trim, IsSpace, RunLength;
  }

  /** A line closed by one visible delimiter. */
  predicate IsClosed(r: string) {
    |r| >= 2 && IsLine(r[..|r| - 1]) && Delimiter(r[|r| - 1]) && !IsSpace(r[|r| - 1])
  }

  /** Texts made of such runs are cut into exactly these, punctuation included. */
  lemma ClosedRunsAreSentences(runs: seq<string>)
    requires runs != [] && forall i | 0 <= i < |runs| :: IsClosed(runs[i])
    ensures Sentences(Concat(runs)) == runs
  {
    hide Parts, IsClosed, Concat;
    ClosedRunsAreParts(runs);
  }

  lemma {:induction false} ClosedRunsAreParts(runs: seq<string>)
    requires forall i | 0 <= i < |runs| :: IsClosed(runs[i])
    ensures Parts(Concat(runs)) == runs
    decreases |runs|
  {
    if runs != [] {
      var r, rest := runs[0], Concat(runs[1..]);
      assert Concat(runs) == r + rest;
      var s, d := r[..|r| - 1], r[|r| - 1];
      assert IsClosed(r) && r == s + [d];
      hide *;
      ClosedRunsAreParts(runs[1..]);
      RunIsSentence(s, d, rest);
      assert runs == [r] + runs[1..];
    }
  }

  /** Such a line is one sentence. */
  lemma LineIsSentence(s: string, rest: string)
    requires IsLine(s)
    ensures Parts(s + "\n" + rest) == [s] + Parts(rest)
    ensures Parts(s) == [s]
  {
    var text := s + ("\n" + rest);
    assert s + "\n" + rest == text;
    RunOf(s, "\n" + rest);
    RunOf(s, "");
    assert s + "" == s;
    assert text[0] == s[0] && !Delimiter(s[0]);
    assert text[..|s| + 1] == s + "\n" && text[|s| + 1..] == rest;
    TrimLineEnd(s);
    TrimTight(s);
    assert s[..|s|] == s && s[|s|..] == "" && Parts("") == [];
    hide Trim, IsSpace, RunLength;
  }

  lemma TwoLinesAreTight(a: string, b: string)
    requires IsLine(a) && IsLine(b)
    ensures Trim(a + "\n" + b) == a + "\n" + b
  {
    var text := a + "\n" + b;
    assert text[0] == a[0] && text[|text| - 1] == b[|b| - 1];
    hide Trim;
    TrimTight(text);
  }

  lemma TwoLines(a: string, b: string)
    requires IsLine(a) && IsLine(b)
    ensures Sentences(a + "\n" + b) == [a, b] && Trim(a + "\n" + b) == a + "\n" + b
  {
    hide Parts, Trim, IsLine;
    TwoLinesAreTight(a, b);
    LineIsSentence(a, b);
    LineIsSentence(b, "");
    assert [a] + [b] == [a, b];
  }

  lemma FullThenFull(n: nat, overlap: int)
    requires n > 0 && 0 < overlap < n
    ensures GrowAll([n, n], n, overlap).tooLong
  {
    assert [n, n][..1] == [n] && [n][..0] == [];
    assert GrowAll([n], n, overlap) == Lengths(0, n, false);
  }

  /** The promised maximum chunk size is broken by ordinary texts with the overlap on: two lines that each fill a chunk. */
  lemma ChunkCanExceedChunkSize(a: string, b: string, overlap: int)
    requires a == "aaaa" && b == "bbbb" && overlap == 1
    ensures SomeTooLong(Pieces(a + "\n" + b, 4, overlap), 4)
  {
    TwoLines(a, b);
    assert LengthsOf([a, b]) == [4, 4] && SafeOverlap(4, overlap) == overlap;
    assert a + "\n" + b != "";
    hide *;
    FullThenFull(4, overlap);
    ChunkTooLongIff(a + "\n" + b, 4, overlap);
  }
}
