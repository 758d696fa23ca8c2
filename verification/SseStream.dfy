/**
 * The streaming loop of the OpenAI-compatible provider: server-sent-event
 * lines cut out of arriving chunks, and tool calls assembled from fragments
 * (src/providers/openai-compat.provider.ts).
 *
 * JSON parsing is a parameter: any function from a payload to a stream chunk
 * or to nothing.  Optional strings keep the source's two notions apart: None
 * is a missing field, and an empty string is present but falsy.
 */
module SseStream {
  import opened Common

  datatype Fragment = Fragment(index: int, id: Option<string>, name: Option<string>, arguments: Option<string>)

  datatype Delta = Delta(content: Option<string>, toolCalls: seq<Fragment>)

  datatype Choice = Choice(delta: Option<Delta>, finishReason: Option<string>)

  datatype Usage = Usage(promptTokens: int, completionTokens: int)

  datatype Payload = Payload(usage: Option<Usage>, choice: Option<Choice>)

  type Parser = string -> Option<Payload>

  datatype Accumulator = Accumulator(index: int, id: Option<string>, name: Option<string>, arguments: string)

  /** Everything the loop has gathered; `done` once `[DONE]` was read. */
  datatype Gathered = Gathered(
    yielded: seq<string>,
    content: string,
    calls: seq<Accumulator>,
    finishReason: string,
    promptTokens: int,
    completionTokens: int,
    done: bool)

  const Nothing := Gathered([], "", [], "stop", 0, 0, false)

  predicate Truthy(s: Option<string>) {
    s.Some? && s.value != ""
  }

  function Text(s: Option<string>): string {
    if s.Some? then s.value else ""
  }

  // ---- fragments ----------------------------------------------------------------

  function Find(calls: seq<Accumulator>, index: int): (k: nat)
    ensures k <= |calls|
    ensures k < |calls| ==> calls[k].index == index
    ensures forall i | 0 <= i < k :: calls[i].index != index
  {
    if calls == [] || calls[0].index == index then 0 else Find(calls[1..], index) + 1
  }

  function Started(f: Fragment): Accumulator {
    Accumulator(f.index, f.id, f.name, Text(f.arguments))
  }

  function Merged(a: Accumulator, f: Fragment): Accumulator {
    a.(id := if Truthy(f.id) then f.id else a.id,
       name := if Truthy(f.name) then f.name else a.name,
       arguments := a.arguments + Text(f.arguments))
  }

  function AddFragment(calls: seq<Accumulator>, f: Fragment): seq<Accumulator> {
    var k := Find(calls, f.index);
    if k == |calls| then calls + [Started(f)] else calls[k := Merged(calls[k], f)]
  }

  function AddFragments(calls: seq<Accumulator>, fs: seq<Fragment>): seq<Accumulator> {
    if fs == [] then calls else AddFragment(AddFragments(calls, fs[..|fs| - 1]), fs[|fs| - 1])
  }

  // ---- lines ---------------------------------------------------------------------

  function AddDelta(g: Gathered, d: Delta): Gathered {
    var said := if Truthy(d.content)
                then g.(content := g.content + d.content.value, yielded := g.yielded + [d.content.value]) else g;
    said.(calls := AddFragments(g.calls, d.toolCalls))
  }

  function AddPayload(g: Gathered, p: Payload): Gathered {
    var counted := if p.usage.Some?
                   then g.(promptTokens := p.usage.value.promptTokens, completionTokens := p.usage.value.completionTokens)
                   else g;
    if p.choice.None? then counted else
    var finished := if Truthy(p.choice.value.finishReason)
                    then counted.(finishReason := p.choice.value.finishReason.value) else counted;
    if p.choice.value.delta.None? then finished else AddDelta(finished, p.choice.value.delta.value)
  }

  /** One complete line, without its newline. */
  function AddLine(g: Gathered, raw: string, parse: Parser): Gathered {
    var line := Trim(raw);
    if !StartsWith(line, "data:") then g else
    var data := Trim(line[5..]);
    if data == "[DONE]" then g.(done := true) else
    var parsed := parse(data);
    if parsed.None? then g else AddPayload(g, parsed.value)
  }

  /** Lines in order, up to and including the first `[DONE]`. */
  function AddLines(g: Gathered, lines: seq<string>, parse: Parser): Gathered
    decreases |lines|
  {
    if lines == [] || g.done then g else AddLines(AddLine(g, lines[0], parse), lines[1..], parse)
  }

  /** The complete lines of a text; what follows its last newline is not one. */
  function Lines(text: string): seq<string>
    decreases |text|
  {
    var i := IndexOf(text, '\n');
    if i == |text| then [] else [text[..i]] + Lines(text[i + 1..])
  }

  function Residue(text: string): string
    decreases |text|
  {
    var i := IndexOf(text, '\n');
    if i == |text| then text else Residue(text[i + 1..])
  }

  /** The batch parse: all complete lines of the whole text at once. */
  function Batch(text: string, parse: Parser): Gathered {
    AddLines(Nothing, Lines(text), parse)
  }

  // ---- the loop -------------------------------------------------------------------

  method MergeFragments(calls: seq<Accumulator>, fs: seq<Fragment>) returns (out: seq<Accumulator>)
    ensures out == AddFragments(calls, fs)
  {
    out := calls;
    for i := 0 to |fs|
      invariant out == AddFragments(calls, fs[..i])
    {
      assert fs[..i + 1][..i] == fs[..i];
      var k := Find(out, fs[i].index);
      if k == |out| {
        out := out + [Accumulator(fs[i].index, fs[i].id, fs[i].name, Text(fs[i].arguments))];
      } else {
        var existing := out[k];
        if Truthy(fs[i].id) {
          existing := existing.(id := fs[i].id);
        }
        if Truthy(fs[i].name) {
          existing := existing.(name := fs[i].name);
        }
        if Truthy(fs[i].arguments) {
          existing := existing.(arguments := existing.arguments + fs[i].arguments.value);
        }
        assert existing == Merged(out[k], fs[i]);
        out := out[k := existing];
      }
    }
    assert fs[..|fs|] == fs;
  }

  /** Takes the complete lines off the buffer until there is none, or `[DONE]` was one of them. */
  method Drain(start: Gathered, text: string, parse: Parser) returns (g: Gathered, buffer: string)
    requires !start.done
    ensures g == AddLines(start, Lines(text), parse)
    ensures !g.done ==> buffer == Residue(text)
  {
    g, buffer := start, text;
    var newline := IndexOf(buffer, '\n');
    while newline != |buffer| && !g.done
      invariant newline == IndexOf(buffer, '\n')
      invariant AddLines(g, Lines(buffer), parse) == AddLines(start, Lines(text), parse)
      invariant Residue(buffer) == Residue(text)
      decreases |buffer|
    {
      var raw := buffer[..newline];
      var rest := buffer[newline + 1..];
      assert Lines(buffer)[1..] == Lines(rest);
      buffer := rest;
      g := AddLine(g, raw, parse);
      newline := IndexOf(buffer, '\n');
    }
  }

  /**
   * The generator: it returns as soon as it reads `[DONE]`, and stops at the
   * chunk before which the caller's signal was aborted.  However the text was
   * cut into chunks, it gathers what the batch parse of the text gathers.
   */
  method Chat(chunks: seq<string>, abortedAt: nat, parse: Parser) returns (g: Gathered)
    ensures g == Batch(Concat(chunks[..Min(abortedAt, |chunks|)]), parse)
    ensures var ps := Payloads(Lines(Concat(chunks[..Min(abortedAt, |chunks|)])), parse);
            && g.yielded == Said(ps) && g.content == Concat(Said(ps)) && g.finishReason == LastReason(ps, "stop")
            && Usage(g.promptTokens, g.completionTokens) == LastUsage(ps, Usage(0, 0))
  {
    g := Nothing;
    var buffer := "";
    ghost var read := chunks[..Min(abortedAt, |chunks|)];
    var k := 0;
    assert "" + Concat(read) == Concat(read);
    assert read[0..] == read && Lines("") == [];
    assert AddLines(g, Lines(buffer + Concat(read[k..])), parse) == Batch(Concat(read), parse);
    hide Lines, Residue, AddLines, Batch, Concat, Payloads, Said, LastReason, LastUsage;
    while k < |chunks| && k != abortedAt && !g.done
      invariant 0 <= k <= |read|
      invariant Lines(buffer) == [] || g.done
      invariant AddLines(g, Lines(buffer + Concat(read[k..])), parse) == Batch(Concat(read), parse)
      decreases |chunks| - k
    {
      assert read[k] == chunks[k] && read[k..][1..] == read[k + 1..];
      ConcatHead(read[k..]);
      assert buffer + Concat(read[k..]) == (buffer + chunks[k]) + Concat(read[k + 1..]);
      ghost var text := buffer + chunks[k];
      LinesOfAppend(text, Concat(read[k + 1..]));
      AddLinesSplit(g, Lines(text), Lines(Residue(text) + Concat(read[k + 1..])), parse);
      g, buffer := Drain(g, buffer + chunks[k], parse);
      ResidueHasNoLine(text);
      k := k + 1;
    }
    if !g.done {
      ConcatHead(read[k..]);
      assert buffer + Concat(read[k..]) == buffer;
    }
    Settled(g, Lines(buffer + Concat(read[k..])), parse);
    BatchSays(Concat(read), parse);
  }

  /** Nothing is added without lines or after `[DONE]`. */
  lemma Settled(g: Gathered, lines: seq<string>, parse: Parser)
    ensures g.done || lines == [] ==> AddLines(g, lines, parse) == g
  {
  }

  lemma ConcatHead(parts: seq<string>)
    ensures Concat(parts) == if parts == [] then "" else parts[0] + Concat(parts[1..])
  {
  }

  // ---- cutting -----------------------------------------------------------------------

  lemma {:induction false} LinesOfAppend(a: string, b: string)
    ensures Lines(a + b) == Lines(a) + Lines(Residue(a) + b)
    ensures Residue(a + b) == Residue(Residue(a) + b)
    decreases |a|
  {
    hide Lines, Residue, IndexOf;
    var i := IndexOf(a, '\n');
    FirstLine(a);
    if i < |a| {
      assert (a + b)[..i] == a[..i];
      IndexOfUnique(a + b, '\n', i);
      FirstLine(a + b);
      assert (a + b)[i + 1..] == a[i + 1..] + b;
      LinesOfAppend(a[i + 1..], b);
      assert [a[..i]] + (Lines(a[i + 1..]) + Lines(Residue(a[i + 1..]) + b)) == Lines(a) + Lines(Residue(a) + b);
    } else {
      assert [] + Lines(a + b) == Lines(a + b);
    }
  }

  lemma FirstLine(text: string)
    ensures var i := IndexOf(text, '\n');
            if i == |text| then Lines(text) == [] && Residue(text) == text
            else Lines(text) == [text[..i]] + Lines(text[i + 1..]) && Residue(text) == Residue(text[i + 1..])
  {
    hide IndexOf;
  }

  lemma {:induction false} ResidueHasNoLine(text: string)
    ensures Lines(Residue(text)) == []
    decreases |text|
  {
    var i := IndexOf(text, '\n');
    if i < |text| {
      ResidueHasNoLine(text[i + 1..]);
    }
  }

  lemma {:induction false} AddLinesSplit(g: Gathered, a: seq<string>, b: seq<string>, parse: Parser)
    ensures AddLines(g, a + b, parse) == AddLines(AddLines(g, a, parse), b, parse)
    decreases |a|
  {
    if a == [] {
      assert a + b == b;
    } else if !g.done {
      assert (a + b)[1..] == a[1..] + b;
      AddLinesSplit(AddLine(g, a[0], parse), a[1..], b, parse);
    }
  }

  /** Two ways of cutting one text into chunks gather the same. */
  lemma ChunkingInvariant(one: seq<string>, other: seq<string>, parse: Parser)
    requires Concat(one) == Concat(other)
    ensures ByChunks(Nothing, "", one, parse) == ByChunks(Nothing, "", other, parse)
  {
    ByChunksIsBatch(Nothing, "", one, parse);
    ByChunksIsBatch(Nothing, "", other, parse);
    assert "" + Concat(one) == Concat(one) && "" + Concat(other) == Concat(other);
  }

  /** The chunk loop as a function of what is gathered, the buffer and the chunks still to come. */
  function ByChunks(g: Gathered, buffer: string, chunks: seq<string>, parse: Parser): Gathered
    decreases |chunks|
  {
    if chunks == [] || g.done then g
    else
      var text := buffer + chunks[0];
      ByChunks(AddLines(g, Lines(text), parse), Residue(text), chunks[1..], parse)
  }

  lemma {:induction false} ByChunksIsBatch(g: Gathered, buffer: string, chunks: seq<string>, parse: Parser)
    requires Lines(buffer) == []
    ensures ByChunks(g, buffer, chunks, parse) == AddLines(g, Lines(buffer + Concat(chunks)), parse)
    decreases |chunks|
  {
    if chunks == [] {
      assert buffer + Concat(chunks) == buffer;
    } else {
      var text := buffer + chunks[0];
      var rest := Concat(chunks[1..]);
      assert buffer + Concat(chunks) == text + rest;
      LinesOfAppend(text, rest);
      AddLinesSplit(g, Lines(text), Lines(Residue(text) + rest), parse);
      ResidueHasNoLine(text);
      ByChunksIsBatch(AddLines(g, Lines(text), parse), Residue(text), chunks[1..], parse);
    }
  }

  // ---- the lines of a text -----------------------------------------------------------

  function Ended(lines: seq<string>): (r: seq<string>)
    ensures |r| == |lines| && forall i | 0 <= i < |lines| :: r[i] == lines[i] + "\n"
  {
    seq(|lines|, i requires 0 <= i < |lines| => lines[i] + "\n")
  }

  /** Any newline-free lines, each ended by a newline, and what follows the last of them, are found again. */
  lemma {:induction false} LinesInvertEnded(lines: seq<string>, rest: string)
    requires (forall i | 0 <= i < |lines| :: '\n' !in lines[i]) && '\n' !in rest
    ensures Lines(Concat(Ended(lines)) + rest) == lines && Residue(Concat(Ended(lines)) + rest) == rest
    decreases |lines|
  {
    hide Lines, Residue, IndexOf;
    ConcatHead(Ended(lines));
    var text := Concat(Ended(lines)) + rest;
    FirstLine(text);
    if lines == [] {
      assert text == "" + rest == rest;
      IndexOfUnique(text, '\n', |text|);
    } else {
      var tail := Concat(Ended(lines[1..])) + rest;
      assert Ended(lines)[1..] == Ended(lines[1..]);
      assert text == lines[0] + "\n" + tail;
      assert text[..|lines[0]|] == lines[0] && text[|lines[0]| + 1..] == tail;
      IndexOfUnique(text, '\n', |lines[0]|);
      LinesInvertEnded(lines[1..], rest);
      assert lines == [lines[0]] + lines[1..];
    }
  }

  // ---- what is said, why it ends and what it costs -----------------------------------

  /** The payloads that arrive: the data lines before `[DONE]`, as far as they parse. */
  function Payloads(lines: seq<string>, parse: Parser): seq<Payload>
    decreases |lines|
  {
    if lines == [] || IsDone(lines[0]) then []
    else PayloadOf(lines[0], parse) + Payloads(lines[1..], parse)
  }

  function PayloadOf(raw: string, parse: Parser): seq<Payload> {
    var line := Trim(raw);
    if StartsWith(line, "data:") && parse(Trim(line[5..])).Some? then [parse(Trim(line[5..])).value] else []
  }

  /** The texts that are not empty, in order of arrival. */
  function Said(ps: seq<Payload>): seq<string> {
    if ps == [] then [] else SaidIn(ps[0]) + Said(ps[1..])
  }

  function SaidIn(p: Payload): seq<string> {
    match p.choice
    case Some(Choice(Some(Delta(Some(text), _)), _)) => if text != "" then [text] else []
    case _ => []
  }

  /** The last finish reason that is not empty, or `otherwise`. */
  function LastReason(ps: seq<Payload>, otherwise: string): string {
    if ps == [] then otherwise
    else
      match ps[|ps| - 1].choice
      case Some(Choice(_, Some(reason))) => if reason != "" then reason else LastReason(ps[..|ps| - 1], otherwise)
      case _ => LastReason(ps[..|ps| - 1], otherwise)
  }

  /** The usage of the last payload that has one, or `otherwise`. */
  function LastUsage(ps: seq<Payload>, otherwise: Usage): Usage {
    if ps == [] then otherwise
    else if ps[|ps| - 1].usage.Some? then ps[|ps| - 1].usage.value
    else LastUsage(ps[..|ps| - 1], otherwise)
  }

  lemma {:induction false} LastAfterFirst(p: Payload, ps: seq<Payload>, reason: string, usage: Usage)
    ensures LastReason([p] + ps, reason) == LastReason(ps, LastReason([p], reason))
    ensures LastUsage([p] + ps, usage) == LastUsage(ps, LastUsage([p], usage))
    decreases |ps|
  {
    if ps == [] {
      assert [p] + ps == [p];
    } else {
      var longer := [p] + ps;
      assert longer[..|longer| - 1] == [p] + ps[..|ps| - 1] && longer[|longer| - 1] == ps[|ps| - 1];
      LastAfterFirst(p, ps[..|ps| - 1], reason, usage);
    }
  }

  predicate Says(r: Gathered, g: Gathered, ps: seq<Payload>) {
    && r.yielded == g.yielded + Said(ps)
    && r.content == g.content + Concat(Said(ps))
    && r.finishReason == LastReason(ps, g.finishReason)
    && Usage(r.promptTokens, r.completionTokens) == LastUsage(ps, Usage(g.promptTokens, g.completionTokens))
  }

  lemma PayloadSays(g: Gathered, p: Payload)
    ensures Says(AddPayload(g, p), g, [p])
  {
    OnePayload(p, g.finishReason, Usage(g.promptTokens, g.completionTokens));
    assert g.yielded + [] == g.yielded && g.content + "" == g.content;
    hide AddFragments, Said, LastReason, LastUsage, Concat;
  }

  lemma OnePayload(p: Payload, reason: string, usage: Usage)
    ensures Said([p]) == SaidIn(p)
    ensures Concat(SaidIn(p)) == if SaidIn(p) == [] then "" else SaidIn(p)[0]
    ensures LastReason([p], reason)
         == if p.choice.Some? && p.choice.value.finishReason.Some? && p.choice.value.finishReason.value != ""
            then p.choice.value.finishReason.value else reason
    ensures LastUsage([p], usage) == if p.usage.Some? then p.usage.value else usage
  {
    assert [p][1..] == [] && [p][..0] == [] && Said([]) == [];
    assert SaidIn(p) + [] == SaidIn(p);
    if SaidIn(p) != [] {
      assert SaidIn(p)[1..] == [] && SaidIn(p)[0] + "" == SaidIn(p)[0];
    }
  }

  lemma LineSays(g: Gathered, raw: string, parse: Parser)
    requires !g.done
    ensures Says(AddLine(g, raw, parse), g, if IsDone(raw) then [] else PayloadOf(raw, parse))
  {
    NothingSaid(g);
    var line := Trim(raw);
    if StartsWith(line, "data:") {
      var parsed := parse(Trim(line[5..]));
      if parsed.Some? {
        PayloadSays(g, parsed.value);
      }
    }
    hide StartsWith, AddPayload, Trim, Says;
    if IsDone(raw) {
      DoneSaysNothing(g);
    }
  }

  lemma NothingSaid(g: Gathered)
    ensures Says(g, g, [])
  {
    assert g.yielded + [] == g.yielded && g.content + "" == g.content;
  }

  lemma DoneSaysNothing(g: Gathered)
    ensures Says(g.(done := true), g, [])
  {
    assert g.yielded + [] == g.yielded && g.content + "" == g.content;
  }

  lemma SaidFirst(p: Payload, ps: seq<Payload>)
    ensures Said([p] + ps) == Said([p]) + Said(ps)
  {
    assert ([p] + ps)[1..] == ps && [p][1..] == [];
    assert SaidIn(p) + [] == SaidIn(p);
    hide SaidIn;
  }

  lemma SaysThenSays(a: Gathered, b: Gathered, c: Gathered, ps: seq<Payload>, qs: seq<Payload>)
    requires Says(b, a, ps) && Says(c, b, qs) && |ps| <= 1
    ensures Says(c, a, ps + qs)
  {
    hide Said, LastReason, LastUsage, Concat;
    if ps == [] {
      SaysNothing(b, a);
      assert ps + qs == qs;
    } else {
      assert ps == [ps[0]];
      LastAfterFirst(ps[0], qs, a.finishReason, Usage(a.promptTokens, a.completionTokens));
      SaidFirst(ps[0], qs);
      ConcatAppend(Said(ps), Said(qs));
      assert a.yielded + Said(ps) + Said(qs) == a.yielded + (Said(ps) + Said(qs));
      assert a.content + Concat(Said(ps)) + Concat(Said(qs)) == a.content + (Concat(Said(ps)) + Concat(Said(qs)));
    }
  }

  lemma SaysNothing(b: Gathered, a: Gathered)
    requires Says(b, a, [])
    ensures b.yielded == a.yielded && b.content == a.content && b.finishReason == a.finishReason
    ensures b.promptTokens == a.promptTokens && b.completionTokens == a.completionTokens
  {
    assert a.yielded + [] == a.yielded && a.content + "" == a.content;
  }

  lemma {:induction false} ConcatAppend(a: seq<string>, b: seq<string>)
    ensures Concat(a + b) == Concat(a) + Concat(b)
    decreases |a|
  {
    if a == [] {
      assert a + b == b;
    } else {
      assert (a + b)[1..] == a[1..] + b;
      ConcatAppend(a[1..], b);
    }
  }

  lemma {:induction false} LinesSay(g: Gathered, lines: seq<string>, parse: Parser)
    requires !g.done
    ensures Says(AddLines(g, lines, parse), g, Payloads(lines, parse))
    decreases |lines|
  {
    if lines == [] {
      NothingSaid(g);
    } else {
      var g' := AddLine(g, lines[0], parse);
      LineSays(g, lines[0], parse);
      LineAddsItsFragments(g, lines[0], parse);
      hide AddLine, IsDone, PayloadOf, Says;
      if g'.done {
        assert AddLines(g', lines[1..], parse) == g';
      } else {
        LinesSay(g', lines[1..], parse);
        assert |PayloadOf(lines[0], parse)| <= 1 by { AtMostOnePayload(lines[0], parse); }
        SaysThenSays(g, g', AddLines(g', lines[1..], parse), PayloadOf(lines[0], parse), Payloads(lines[1..], parse));
      }
    }
  }

  lemma AtMostOnePayload(raw: string, parse: Parser)
    ensures |PayloadOf(raw, parse)| <= 1
  {
  }

  /**
   * What the caller sees of a text, from its payloads alone: every text that
   * is not empty is handed out as it arrives, the final content is all of them
   * joined, the last finish reason and the last usage count.
   */
  lemma BatchSays(text: string, parse: Parser)
    ensures var g, ps := Batch(text, parse), Payloads(Lines(text), parse);
            && g.yielded == Said(ps)
            && g.content == Concat(Said(ps))
            && g.finishReason == LastReason(ps, "stop")
            && g.promptTokens == LastUsage(ps, Usage(0, 0)).promptTokens
            && g.completionTokens == LastUsage(ps, Usage(0, 0)).completionTokens
  {
    LinesSay(Nothing, Lines(text), parse);
    var said := Said(Payloads(Lines(text), parse));
    hide Lines, AddLines, Payloads, Said, LastReason, LastUsage, Concat;
    assert [] + said == said && "" + Concat(said) == Concat(said);
  }

  // ---- what the gathered tool calls are --------------------------------------------

  /** The fragments of all payloads that were added, in order of arrival. */
  function Fragments(lines: seq<string>, parse: Parser): seq<Fragment>
    decreases |lines|
  {
    if lines == [] || IsDone(lines[0]) then []
    else LineFragments(lines[0], parse) + Fragments(lines[1..], parse)
  }

  predicate IsDone(raw: string) {
    StartsWith(Trim(raw), "data:") && Trim(Trim(raw)[5..]) == "[DONE]"
  }

  function LineFragments(raw: string, parse: Parser): seq<Fragment> {
    if StartsWith(Trim(raw), "data:") then FragmentsOf(parse(Trim(Trim(raw)[5..]))) else []
  }

  function FragmentsOf(p: Option<Payload>): seq<Fragment> {
    if p.Some? && p.value.choice.Some? && p.value.choice.value.delta.Some?
    then p.value.choice.value.delta.value.toolCalls else []
  }

  lemma PayloadAddsItsFragments(g: Gathered, p: Payload)
    ensures AddPayload(g, p).calls == AddFragments(g.calls, FragmentsOf(Some(p)))
    ensures AddPayload(g, p).done == g.done
  {
    NoFragments(g.calls);
    hide AddFragments;
  }

  lemma LineAddsItsFragments(g: Gathered, raw: string, parse: Parser)
    requires !g.done
    ensures AddLine(g, raw, parse).done <==> IsDone(raw)
    ensures AddLine(g, raw, parse).calls == if IsDone(raw) then g.calls else AddFragments(g.calls, LineFragments(raw, parse))
  {
    NoFragments(g.calls);
    var line := Trim(raw);
    if StartsWith(line, "data:") {
      var parsed := parse(Trim(line[5..]));
      if parsed.Some? {
        PayloadAddsItsFragments(g, parsed.value);
      }
    }
    hide StartsWith, AddPayload, AddFragments, Trim;
  }

  lemma {:induction false} AddFragmentsSplit(calls: seq<Accumulator>, a: seq<Fragment>, b: seq<Fragment>)
    ensures AddFragments(calls, a + b) == AddFragments(AddFragments(calls, a), b)
    decreases |b|
  {
    if b == [] {
      assert a + b == a;
    } else {
      assert (a + b)[..|a + b| - 1] == a + b[..|b| - 1];
      AddFragmentsSplit(calls, a, b[..|b| - 1]);
    }
  }

  lemma {:induction false} CallsAreFragments(g: Gathered, lines: seq<string>, parse: Parser)
    requires !g.done
    ensures AddLines(g, lines, parse).calls == AddFragments(g.calls, Fragments(lines, parse))
    decreases |lines|
  {
    if lines != [] {
      var g' := AddLine(g, lines[0], parse);
      LineAddsItsFragments(g, lines[0], parse);
      hide AddLine, LineFragments, IsDone, AddFragments;
      if g'.done {
        assert AddLines(g', lines[1..], parse) == g';
        NoFragments(g.calls);
      } else {
        AddFragmentsSplit(g.calls, LineFragments(lines[0], parse), Fragments(lines[1..], parse));
        CallsAreFragments(g', lines[1..], parse);
      }
    } else {
      NoFragments(g.calls);
    }
  }

  lemma NoFragments(calls: seq<Accumulator>)
    ensures AddFragments(calls, []) == calls
  {
  }

  /** The argument texts sent for one index, joined in order of arrival. */
  function ArgumentsFor(fs: seq<Fragment>, index: int): string {
    if fs == [] then ""
    else
      var f := fs[|fs| - 1];
      ArgumentsFor(fs[..|fs| - 1], index) + if f.index == index && f.arguments.Some? then f.arguments.value else ""
  }

  datatype Field = Id | Name

  function FieldOf(f: Fragment, field: Field): Option<string> {
    match field
    case Id => f.id
    case Name => f.name
  }

  /** The id or name sent for one index: the last one that is not empty, else whatever its first fragment has. */
  function FieldFor(fs: seq<Fragment>, index: int, field: Field): Option<string> {
    if fs == [] then None
    else
      var init, f := fs[..|fs| - 1], fs[|fs| - 1];
      var sent := FieldOf(f, field);
      if f.index == index && ((sent.Some? && sent.value != "") || !Mentions(init, index)) then sent
      else FieldFor(init, index, field)
  }

  predicate Mentions(fs: seq<Fragment>, index: int) {
    exists f | f in fs :: f.index == index
  }

  predicate Holds(calls: seq<Accumulator>, index: int) {
    exists i | 0 <= i < |calls| :: calls[i].index == index
  }

  predicate Distinct(calls: seq<Accumulator>) {
    forall i, j | 0 <= i < j < |calls| :: calls[i].index != calls[j].index
  }

  /** What the fragments say about the accumulator of an index. */
  predicate HoldsFragments(a: Accumulator, fs: seq<Fragment>) {
    && a.arguments == ArgumentsFor(fs, a.index)
    && a.id == FieldFor(fs, a.index, Id)
    && a.name == FieldFor(fs, a.index, Name)
  }

  lemma StartedHolds(fs: seq<Fragment>)
    requires fs != [] && !Mentions(fs[..|fs| - 1], fs[|fs| - 1].index)
    ensures HoldsFragments(Started(fs[|fs| - 1]), fs)
  {
    NoArguments(fs[..|fs| - 1], fs[|fs| - 1].index);
  }

  lemma MergedHolds(a: Accumulator, fs: seq<Fragment>)
    requires fs != [] && HoldsFragments(a, fs[..|fs| - 1]) && Mentions(fs[..|fs| - 1], a.index)
    ensures HoldsFragments(if fs[|fs| - 1].index == a.index then Merged(a, fs[|fs| - 1]) else a, fs)
  {
    hide Mentions;
  }

  /** One accumulator per index mentioned, holding exactly what that index's fragments say. */
  lemma {:induction false} AccumulatorsHoldFragments(fs: seq<Fragment>)
    ensures Distinct(AddFragments([], fs))
    ensures forall index :: Mentions(fs, index) <==> Holds(AddFragments([], fs), index)
    ensures forall i | 0 <= i < |AddFragments([], fs)| :: HoldsFragments(AddFragments([], fs)[i], fs)
    decreases |fs|
  {
    if fs != [] {
      var init, f := fs[..|fs| - 1], fs[|fs| - 1];
      var calls := AddFragments([], init);
      AccumulatorsHoldFragments(init);
      var k := Find(calls, f.index);
      var out := AddFragments([], fs);
      assert Holds(calls, f.index) <==> k < |calls|;
      assert out == if k == |calls| then calls + [Started(f)] else calls[k := Merged(calls[k], f)];
      hide HoldsFragments, AddFragments;
      forall index
        ensures Mentions(fs, index) <==> Holds(out, index)
      {
        MentionsLast(fs, index);
        if k == |calls| {
          HoldsAppended(calls, Started(f), index);
        } else {
          HoldsUpdated(calls, k, Merged(calls[k], f), index);
        }
      }
      if k == |calls| {
        StartedHolds(fs);
      }
      forall i | 0 <= i < |out| ensures HoldsFragments(out[i], fs) {
        if i < |calls| {
          assert Holds(calls, calls[i].index);
          MergedHolds(calls[i], fs);
        }
      }
    }
  }

  lemma MentionsLast(fs: seq<Fragment>, index: int)
    requires fs != []
    ensures Mentions(fs, index) <==> Mentions(fs[..|fs| - 1], index) || fs[|fs| - 1].index == index
  {
    assert fs == fs[..|fs| - 1] + [fs[|fs| - 1]];
  }

  lemma HoldsAppended(calls: seq<Accumulator>, a: Accumulator, index: int)
    ensures Holds(calls + [a], index) <==> Holds(calls, index) || a.index == index
  {
    assert (calls + [a])[|calls|] == a;
    if Holds(calls, index) {
      var i :| 0 <= i < |calls| && calls[i].index == index;
      assert (calls + [a])[i].index == index;
    }
  }

  lemma HoldsUpdated(calls: seq<Accumulator>, k: nat, a: Accumulator, index: int)
    requires k < |calls| && a.index == calls[k].index
    ensures Holds(calls[k := a], index) <==> Holds(calls, index)
  {
    if Holds(calls, index) {
      var i :| 0 <= i < |calls| && calls[i].index == index;
      assert calls[k := a][i].index == index;
    }
  }

  lemma {:induction false} NoArguments(fs: seq<Fragment>, index: int)
    requires !Mentions(fs, index)
    ensures ArgumentsFor(fs, index) == ""
    decreases |fs|
  {
    if fs != [] {
      assert fs[|fs| - 1] in fs;
      NoArguments(fs[..|fs| - 1], index);
    }
  }

  // ---- the result ---------------------------------------------------------------------

  datatype ToolCall = ToolCall(index: int, id: Option<string>, name: string, arguments: string)

  function InsertByIndex(a: Accumulator, sorted: seq<Accumulator>): seq<Accumulator> {
    if sorted == [] || a.index < sorted[0].index then [a] + sorted
    else [sorted[0]] + InsertByIndex(a, sorted[1..])
  }

  function SortByIndex(calls: seq<Accumulator>): seq<Accumulator> {
    if calls == [] then [] else InsertByIndex(calls[|calls| - 1], SortByIndex(calls[..|calls| - 1]))
  }

  /** Nameless calls are dropped; a missing id stands for the generated `call_<index>`. */
  function Finished(a: Accumulator): seq<ToolCall> {
    if Truthy(a.name) then [ToolCall(a.index, a.id, a.name.value, if a.arguments == "" then "{}" else a.arguments)] else []
  }

  function Finish(sorted: seq<Accumulator>): seq<ToolCall> {
    if sorted == [] then [] else Finished(sorted[0]) + Finish(sorted[1..])
  }

  function BuildResult(calls: seq<Accumulator>): Option<seq<ToolCall>> {
    if calls == [] then None else Some(Finish(SortByIndex(calls)))
  }

  predicate Increasing(calls: seq<Accumulator>) {
    forall i, j | 0 <= i < j < |calls| :: calls[i].index < calls[j].index
  }

  lemma {:induction false} InsertKeepsAll(a: Accumulator, sorted: seq<Accumulator>)
    ensures multiset(InsertByIndex(a, sorted)) == multiset(sorted) + multiset{a}
    decreases |sorted|
  {
    if sorted != [] && !(a.index < sorted[0].index) {
      InsertKeepsAll(a, sorted[1..]);
      assert sorted == [sorted[0]] + sorted[1..];
    }
  }

  /** Inserting keeps the order and any strict bound from below. */
  lemma {:induction false} InsertSorts(a: Accumulator, sorted: seq<Accumulator>, bound: int)
    requires Increasing(sorted) && forall i | 0 <= i < |sorted| :: sorted[i].index != a.index
    requires bound < a.index && forall i | 0 <= i < |sorted| :: bound < sorted[i].index
    ensures Increasing(InsertByIndex(a, sorted))
    ensures forall i | 0 <= i < |InsertByIndex(a, sorted)| :: bound < InsertByIndex(a, sorted)[i].index
    decreases |sorted|
  {
    if sorted != [] && !(a.index < sorted[0].index) {
      InsertSorts(a, sorted[1..], sorted[0].index);
    }
  }

  lemma {:induction false} SortKeepsAll(calls: seq<Accumulator>)
    ensures multiset(SortByIndex(calls)) == multiset(calls)
    decreases |calls|
  {
    if calls != [] {
      var init, last := calls[..|calls| - 1], calls[|calls| - 1];
      SortKeepsAll(init);
      assert calls == init + [last];
      InsertKeepsAll(last, SortByIndex(init));
      hide InsertByIndex;
    }
  }

  lemma SortHasNoOthers(calls: seq<Accumulator>, i: nat)
    requires i < |SortByIndex(calls)|
    ensures SortByIndex(calls)[i] in calls
  {
    SortKeepsAll(calls);
    hide SortByIndex;
    assert SortByIndex(calls)[i] in multiset(SortByIndex(calls));
  }

  function Below(sorted: seq<Accumulator>, index: int): (b: int)
    ensures b < index && (sorted != [] ==> b < sorted[0].index)
  {
    if sorted == [] then index - 1 else Min(index, sorted[0].index) - 1
  }

  lemma {:induction false} SortSorts(calls: seq<Accumulator>)
    requires Distinct(calls)
    ensures Increasing(SortByIndex(calls)) && multiset(SortByIndex(calls)) == multiset(calls)
    decreases |calls|
  {
    SortKeepsAll(calls);
    if calls != [] {
      var init, last := calls[..|calls| - 1], calls[|calls| - 1];
      var sorted := SortByIndex(init);
      SortSorts(init);
      forall i | 0 <= i < |sorted| ensures sorted[i].index != last.index {
        SortHasNoOthers(init, i);
        var k :| 0 <= k < |init| && init[k] == sorted[i];
        assert calls[k] == sorted[i];
      }
      InsertSorts(last, sorted, Below(sorted, last.index));
    }
  }

  predicate Finishes(t: ToolCall, a: Accumulator) {
    Truthy(a.name) && t == ToolCall(a.index, a.id, a.name.value, if a.arguments == "" then "{}" else a.arguments)
  }

  predicate ComesFrom(t: ToolCall, sorted: seq<Accumulator>) {
    exists i | 0 <= i < |sorted| :: Finishes(t, sorted[i])
  }

  /** Every finished call comes from a named accumulator, and the order is kept. */
  lemma {:induction false} FinishKeepsOrder(sorted: seq<Accumulator>)
    requires Increasing(sorted)
    ensures forall t | t in Finish(sorted) :: ComesFrom(t, sorted)
    ensures forall i, j | 0 <= i < j < |Finish(sorted)| :: Finish(sorted)[i].index < Finish(sorted)[j].index
    decreases |sorted|
  {
    if sorted != [] {
      var a, rest := sorted[0], sorted[1..];
      FinishKeepsOrder(rest);
      assert Finish(sorted) == Finished(a) + Finish(rest);
      assert forall i | 0 <= i < |rest| :: a.index < rest[i].index;
      assert forall t | t in Finished(a) :: Finishes(t, sorted[0]);
      assert |Finished(a)| <= 1;
      hide Finish, Finished;
      FinishedComeLater(a, rest);
      forall t | t in Finish(rest) ensures ComesFrom(t, sorted) {
        var i :| 0 <= i < |rest| && Finishes(t, rest[i]);
        assert sorted[i + 1] == rest[i];
      }
    }
  }

  lemma FinishedComeLater(a: Accumulator, rest: seq<Accumulator>)
    requires forall i | 0 <= i < |rest| :: a.index < rest[i].index
    requires forall t | t in Finish(rest) :: ComesFrom(t, rest)
    ensures forall i | 0 <= i < |Finish(rest)| :: a.index < Finish(rest)[i].index
  {
    hide Finish;
    forall i | 0 <= i < |Finish(rest)| ensures a.index < Finish(rest)[i].index {
      assert ComesFrom(Finish(rest)[i], rest);
    }
  }

  /** No named accumulator is lost. */
  lemma {:induction false} FinishKeepsNamed(sorted: seq<Accumulator>, a: Accumulator)
    requires a in sorted && Truthy(a.name)
    ensures exists t | t in Finish(sorted) :: Finishes(t, a)
    decreases |sorted|
  {
    if a == sorted[0] {
      var head := ToolCall(a.index, a.id, a.name.value, if a.arguments == "" then "{}" else a.arguments);
      assert Finish(sorted)[0] == head;
      assert Finishes(head, a);
    } else {
      FinishKeepsNamed(sorted[1..], a);
      var t :| t in Finish(sorted[1..]) && Finishes(t, a);
      assert t in Finish(sorted);
    }
  }

  /** The call of an index, from its fragments alone; the id None stands for the generated `call_<index>`. */
  function CallFor(fs: seq<Fragment>, index: int): ToolCall
    requires Truthy(FieldFor(fs, index, Name))
  {
    ToolCall(index, FieldFor(fs, index, Id), FieldFor(fs, index, Name).value,
             if ArgumentsFor(fs, index) == "" then "{}" else ArgumentsFor(fs, index))
  }

  lemma FinishesIsCallFor(t: ToolCall, a: Accumulator, fs: seq<Fragment>)
    requires Finishes(t, a) && HoldsFragments(a, fs)
    ensures Truthy(FieldFor(fs, t.index, Name)) && t == CallFor(fs, t.index)
  {
    hide FieldFor, ArgumentsFor;
  }

  /** One call for every index that was given a name, strictly increasing by index, each as its fragments say. */
  ghost predicate AreWhole(calls: seq<ToolCall>, fs: seq<Fragment>) {
    && (forall i, j | 0 <= i < j < |calls| :: calls[i].index < calls[j].index)
    && (forall t | t in calls ::
          Mentions(fs, t.index) && Truthy(FieldFor(fs, t.index, Name)) && t == CallFor(fs, t.index))
    && (forall index | Mentions(fs, index) && Truthy(FieldFor(fs, index, Name)) :: CallFor(fs, index) in calls)
  }

  /**
   * The tool calls of the result, from the fragments of the text alone: one
   * for every index that was given a name, strictly increasing by index, each
   * with the arguments joined in order of arrival and the id and name sent for
   * it.
   */
  lemma ToolCallsAreWhole(text: string, parse: Parser)
    requires BuildResult(Batch(text, parse).calls).Some?
    ensures AreWhole(BuildResult(Batch(text, parse).calls).value, Fragments(Lines(text), parse))
  {
    hide Lines, Fragments, AddFragments, Finish, SortByIndex, AreWhole;
    CallsAreFragments(Nothing, Lines(text), parse);
    FinishIsWhole(Fragments(Lines(text), parse));
  }

  /** There is a list of tool calls exactly if any fragment arrived. */
  lemma NoCallsIffNoFragments(text: string, parse: Parser)
    ensures BuildResult(Batch(text, parse).calls).None? <==> Fragments(Lines(text), parse) == []
  {
    var fs := Fragments(Lines(text), parse);
    CallsAreFragments(Nothing, Lines(text), parse);
    AccumulatorsHoldFragments(fs);
    NoFragments([]);
    if fs != [] {
      assert Mentions(fs, fs[0].index);
      assert Holds(AddFragments([], fs), fs[0].index);
    }
    hide Lines, AddFragments, Fragments, HoldsFragments, Finish, SortByIndex;
  }

  lemma FinishIsWhole(fs: seq<Fragment>)
    ensures AreWhole(Finish(SortByIndex(AddFragments([], fs))), fs)
  {
    var gathered := AddFragments([], fs);
    var sorted := SortByIndex(gathered);
    hide AddFragments, HoldsFragments, FieldFor, ArgumentsFor, Finish, SortByIndex, Holds, Mentions, CallFor;
    AccumulatorsHoldFragments(fs);
    SortSorts(gathered);
    FinishKeepsOrder(sorted);
    forall t | t in Finish(sorted)
      ensures Mentions(fs, t.index) && Truthy(FieldFor(fs, t.index, Name)) && t == CallFor(fs, t.index)
    {
      FinishedIsCallFor(t, gathered, sorted, fs);
    }
    forall index | Mentions(fs, index) && Truthy(FieldFor(fs, index, Name)) ensures CallFor(fs, index) in Finish(sorted) {
      NamedIsFinished(gathered, sorted, AtIndex(gathered, index), fs);
    }
  }

  ghost function AtIndex(calls: seq<Accumulator>, index: int): (i: nat)
    requires Holds(calls, index)
    ensures i < |calls| && calls[i].index == index
  {
    var i :| 0 <= i < |calls| && calls[i].index == index;
    i
  }

  lemma FinishedIsCallFor(t: ToolCall, gathered: seq<Accumulator>, sorted: seq<Accumulator>, fs: seq<Fragment>)
    requires multiset(sorted) == multiset(gathered) && ComesFrom(t, sorted)
    requires forall i | 0 <= i < |gathered| :: HoldsFragments(gathered[i], fs)
    ensures Holds(gathered, t.index) && Truthy(FieldFor(fs, t.index, Name)) && t == CallFor(fs, t.index)
  {
    hide HoldsFragments, FieldFor, ArgumentsFor, CallFor;
    var i :| 0 <= i < |sorted| && Finishes(t, sorted[i]);
    assert sorted[i] in multiset(sorted) && sorted[i] in multiset(gathered);
    var j :| 0 <= j < |gathered| && gathered[j] == sorted[i];
    FinishesIsCallFor(t, gathered[j], fs);
  }

  lemma NamedIsFinished(gathered: seq<Accumulator>, sorted: seq<Accumulator>, i: nat, fs: seq<Fragment>)
    requires multiset(sorted) == multiset(gathered) && i < |gathered| && HoldsFragments(gathered[i], fs)
    requires Truthy(FieldFor(fs, gathered[i].index, Name))
    ensures CallFor(fs, gathered[i].index) in Finish(sorted)
  {
    var a := gathered[i];
    assert a in multiset(gathered) && a in multiset(sorted);
    assert Truthy(a.name);
    FinishKeepsNamed(sorted, a);
    var t :| t in Finish(sorted) && Finishes(t, a);
    FinishesIsCallFor(t, a, fs);
  }
}
