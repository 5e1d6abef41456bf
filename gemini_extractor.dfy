/**
 * The string handling of gemini_extractor.py: cleaning the model's reply
 * (markdown fences off, missing closing braces and brackets appended) and
 * naming the JSON file a result is saved under. The model call, image
 * resizing and file writes are outside the model.
 */
module GeminiExtractor {
  import opened Optional
  import opened Text
  import opened JsonValues

  const OpeningFence: string := "```json"
  const ClosingFence: string := "```"

  /** `s` occurs in `t` at offset i. */
  ghost predicate OccursAt(s: string, t: string, i: nat) {
    i + |s| <= |t| && t[i..i + |s|] == s
  }

  /** `s` is a contiguous part of `t`. */
  ghost predicate IsInfix(s: string, t: string) {
    exists i: nat :: OccursAt(s, t, i)
  }

  /** Drops a leading ```json and the whitespace after it. */
  function OpeningFenceOff(t: string): (r: string)
    ensures Trimmed(t) ==> Trimmed(r)
  {
    if OpeningFence <= t then TrimLeft(t[|OpeningFence|..]) else t
  }

  /** Drops a trailing ``` and the whitespace before it. */
  function ClosingFenceOff(t: string): (r: string)
    ensures Trimmed(t) ==> Trimmed(r)
  {
    if |t| >= |ClosingFence| && t[|t| - |ClosingFence|..] == ClosingFence
    then TrimRight(t[..|t| - |ClosingFence|])
    else t
  }

  /**
   * The fence clean-up of the reply: strip it, then drop a leading ```json with
   * the whitespace after it and a trailing ``` with the whitespace before it.
   */
  function StripFences(reply: string): (cleaned: string)
    ensures Trimmed(cleaned)
  {
    ClosingFenceOff(OpeningFenceOff(Strip(reply)))
  }

  lemma {:induction false} InfixTransitive(r: string, s: string, t: string)
    requires IsInfix(r, s) && IsInfix(s, t)
    ensures IsInfix(r, t)
  {
    var i: nat :| OccursAt(r, s, i);
    var k: nat :| OccursAt(s, t, k);
    assert forall x :: 0 <= x < |r| ==> r[x] == s[i + x] == t[k + i + x];
    assert OccursAt(r, t, k + i);
  }

  lemma {:induction false} SuffixIsInfix(s: string, t: string)
    requires |s| <= |t| && s == t[|t| - |s|..]
    ensures IsInfix(s, t)
  {
    assert OccursAt(s, t, |t| - |s|);
  }

  lemma {:induction false} PrefixIsInfix(s: string, t: string)
    requires s <= t
    ensures IsInfix(s, t)
  {
    assert OccursAt(s, t, 0);
  }

  lemma {:induction false} OpeningFenceOffIsInfix(t: string)
    ensures IsInfix(OpeningFenceOff(t), t)
  {
    if OpeningFence <= t {
      var rest := t[|OpeningFence|..];
      TrimLeftIsSuffix(rest);
      SuffixIsInfix(TrimLeft(rest), rest);
      SuffixIsInfix(rest, t);
      InfixTransitive(TrimLeft(rest), rest, t);
    } else {
      PrefixIsInfix(t, t);
    }
  }

  lemma {:induction false} ClosingFenceOffIsInfix(t: string)
    ensures IsInfix(ClosingFenceOff(t), t)
  {
    if |t| >= |ClosingFence| && t[|t| - |ClosingFence|..] == ClosingFence {
      var body := t[..|t| - |ClosingFence|];
      TrimRightIsPrefix(body);
      PrefixIsInfix(TrimRight(body), body);
      PrefixIsInfix(body, t);
      InfixTransitive(TrimRight(body), body, t);
    } else {
      PrefixIsInfix(t, t);
    }
  }

  /** The cleaned reply is a piece of the reply: nothing is added or reordered. */
  lemma {:induction false} StripFencesIsInfix(reply: string)
    ensures IsInfix(StripFences(reply), reply)
  {
    var l := TrimLeft(reply);
    var t := Strip(reply);
    var u := OpeningFenceOff(t);
    TrimLeftIsSuffix(reply);
    SuffixIsInfix(l, reply);
    TrimRightIsPrefix(l);
    PrefixIsInfix(t, l);
    InfixTransitive(t, l, reply);
    OpeningFenceOffIsInfix(t);
    InfixTransitive(u, t, reply);
    ClosingFenceOffIsInfix(u);
    InfixTransitive(ClosingFenceOff(u), u, reply);
  }

  /** A leading ```json goes, with the whitespace after it, and nothing more. */
  lemma {:induction false} OpeningFenceOffDrops(w: string, b: string)
    requires AllSpace(w)
    requires b == [] || !IsSpace(b[0])
    ensures OpeningFenceOff(OpeningFence + w + b) == b
  {
    var t := OpeningFence + w + b;
    assert t[|OpeningFence|..] == w + b;
    TrimLeftPadded(w, b);
  }

  /** A trailing ``` goes, with the whitespace before it, and nothing more. */
  lemma {:induction false} ClosingFenceOffDrops(b: string, w: string)
    requires AllSpace(w)
    requires b == [] || !IsSpace(b[|b| - 1])
    ensures ClosingFenceOff(b + w + ClosingFence) == b
  {
    var t := b + w + ClosingFence;
    assert t[|t| - |ClosingFence|..] == ClosingFence;
    assert t[..|t| - |ClosingFence|] == b + w;
    TrimRightPadded(b, w);
  }

  /**
   * A reply cut off before its closing fence, the case the bracket repair is
   * for, still loses its opening fence.
   */
  lemma {:induction false} StripFencesTruncated(w: string, body: string)
    requires AllSpace(w)
    requires body != [] && Trimmed(body)
    requires !(|body| >= |ClosingFence| && body[|body| - |ClosingFence|..] == ClosingFence)
    ensures StripFences(OpeningFence + w + body) == body
  {
    var reply := OpeningFence + w + body;
    assert reply[|reply| - 1] == body[|body| - 1];
    StripUntrimmed(reply);
    OpeningFenceOffDrops(w, body);
  }

  /**
   * A fenced reply yields its body: the ```json line, the closing ``` and the
   * whitespace around them are removed, and nothing else.
   */
  lemma {:induction false} StripFencesFenced(w1: string, body: string, w2: string)
    requires AllSpace(w1) && AllSpace(w2)
    requires body != [] && Trimmed(body)
    ensures StripFences(OpeningFence + w1 + body + w2 + ClosingFence) == body
  {
    var reply := OpeningFence + w1 + body + w2 + ClosingFence;
    StripUntrimmed(reply);
    var rest := w1 + body + w2 + ClosingFence;
    assert reply[|OpeningFence|..] == rest;
    assert w1 + body + w2 + ClosingFence == w1 + (body + w2 + ClosingFence);
    TrimLeftPadded(w1, body + w2 + ClosingFence);
    var u := body + w2 + ClosingFence;
    assert OpeningFenceOff(reply) == u;
    assert u[..|u| - |ClosingFence|] == body + w2;
    TrimRightPadded(body, w2);
  }

  /** A reply with neither fence is only stripped. */
  lemma {:induction false} StripFencesUnfenced(reply: string)
    requires !(OpeningFence <= Strip(reply))
    requires !(|Strip(reply)| >= |ClosingFence| && Strip(reply)[|Strip(reply)| - |ClosingFence|..] == ClosingFence)
    ensures StripFences(reply) == Strip(reply)
  {
  }

  /** How many closers of one kind are missing: max(0, openers - closers). */
  function Missing(t: string, opener: char, closer: char): nat {
    if Count(t, opener) > Count(t, closer) then Count(t, opener) - Count(t, closer) else 0
  }

  /** The repaired text: the missing `}` first, then the missing `]`. */
  function Repaired(t: string): string {
    t + Repeat('}', Missing(t, '{', '}')) + Repeat(']', Missing(t, '[', ']'))
  }

  /** Closers are at least as many as openers, for both kinds. */
  predicate Closed(t: string) {
    Count(t, '}') >= Count(t, '{') && Count(t, ']') >= Count(t, '[')
  }

  /**
   * Repair only appends closers: the openers keep their counts, and each
   * closer count rises to max(closers, openers).
   */
  lemma {:induction false} RepairedCounts(t: string)
    ensures t <= Repaired(t)
    ensures Count(Repaired(t), '{') == Count(t, '{') && Count(Repaired(t), '[') == Count(t, '[')
    ensures Count(Repaired(t), '}') == Count(t, '}') + Missing(t, '{', '}')
    ensures Count(Repaired(t), ']') == Count(t, ']') + Missing(t, '[', ']')
    ensures Closed(Repaired(t))
  {
    CountRepairedAt(t, '{');
    CountRepairedAt(t, '}');
    CountRepairedAt(t, '[');
    CountRepairedAt(t, ']');
  }

  lemma {:induction false} CountRepairedAt(t: string, c: char)
    ensures Count(Repaired(t), c) == Count(t, c)
      + (if c == '}' then Missing(t, '{', '}') else 0)
      + (if c == ']' then Missing(t, '[', ']') else 0)
  {
    var braces, brackets := Repeat('}', Missing(t, '{', '}')), Repeat(']', Missing(t, '[', ']'));
    CountAppend(t + braces, brackets, c);
    CountAppend(t, braces, c);
    CountRepeat('}', Missing(t, '{', '}'), c);
    CountRepeat(']', Missing(t, '[', ']'), c);
  }

  /** Text that is already closed is left alone, and only such text is. */
  lemma {:induction false} RepairedUnchangedIffClosed(t: string)
    ensures Repaired(t) == t <==> Closed(t)
  {
  }

  /** Repairing twice is repairing once. */
  lemma {:induction false} RepairedIdempotent(t: string)
    ensures Repaired(Repaired(t)) == Repaired(t)
  {
    RepairedCounts(t);
    RepairedUnchangedIffClosed(Repaired(t));
  }

  /**
   * The repair step of extract_invoice_fields: count the four characters,
   * then append the missing `}` and the missing `]` with `+=`.
   */
  method RepairBrackets(cleaned: string) returns (repaired: string)
    ensures repaired == Repaired(cleaned)
    ensures cleaned <= repaired && Closed(repaired)
  {
    var openBraces := Count(cleaned, '{');
    var closeBraces := Count(cleaned, '}');
    var openBrackets := Count(cleaned, '[');
    var closeBrackets := Count(cleaned, ']');
    repaired := cleaned;
    if openBraces > closeBraces {
      repaired := repaired + Repeat('}', openBraces - closeBraces);
    } else {
      assert Repeat('}', Missing(cleaned, '{', '}')) == [];
    }
    assert repaired == cleaned + Repeat('}', Missing(cleaned, '{', '}'));
    if openBrackets > closeBrackets {
      repaired := repaired + Repeat(']', openBrackets - closeBrackets);
    } else {
      assert Repeat(']', Missing(cleaned, '[', ']')) == [];
    }
    RepairedCounts(cleaned);
  }

  /** What extract_invoice_fields returns once the model has replied. */
  datatype Extraction = Parsed(value: Json) | Unparsed(text: string)

  /**
   * extract_invoice_fields after the model call: clean the reply, repair it,
   * then json.loads it (given as `loads`). A reply that does not parse comes
   * back as the repaired text.
   */
  method ExtractFields(reply: string, loads: string -> Option<Json>) returns (result: Extraction)
    ensures var text := Repaired(StripFences(reply));
      && (loads(text).Some? ==> result == Parsed(loads(text).value))
      && (loads(text).None? ==> result == Unparsed(text))
    ensures result.Unparsed? ==> loads(result.text).None? && Closed(result.text)
  {
    var cleaned := StripFences(reply);
    var repaired := RepairBrackets(cleaned);
    match loads(repaired)
    case Some(v) => result := Parsed(v);
    case None => result := Unparsed(repaired);
  }

  /** os.path.basename on a POSIX path: the text after the last '/'. */
  function Basename(path: string): (base: string)
    ensures '/' !in base
    ensures |base| <= |path| && base == path[|path| - |base|..]
    ensures |base| < |path| ==> path[|path| - |base| - 1] == '/'
  {
    match LastIndexOf(path, '/')
    case None => path
    case Some(k) => path[k + 1..]
  }

  /** Some character of `s` is not a dot. */
  predicate HasNonDot(s: string) {
    exists j :: 0 <= j < |s| && s[j] != '.'
  }

  /**
   * os.path.splitext(base)[0] for a name without '/': the text before the last
   * dot, unless only dots precede that dot (".env" keeps its name).
   */
  function Stem(base: string): (stem: string)
    ensures stem <= base
    ensures stem != base ==> base[|stem|] == '.' && '.' !in base[|stem| + 1..] && HasNonDot(stem)
    ensures stem == base ==> '.' !in base || !HasNonDot(base[..LastIndexOf(base, '.').value])
  {
    match LastIndexOf(base, '.')
    case None => base
    case Some(k) => if HasNonDot(base[..k]) then base[..k] else base
  }

  /**
   * save_output_json's file name: "output/" + the image's stem + "_" +
   * the timestamp (strftime "%Y%m%d_%H%M%S", given here) + ".json".
   */
  function OutputFileName(imagePath: string, timestamp: string): string {
    "output/" + Stem(Basename(imagePath)) + "_" + timestamp + ".json"
  }

  /**
   * The output name sits directly in "output/": it starts with the image's
   * stem and ends in "_" + timestamp + ".json", and with a slash-free
   * timestamp nothing after "output/" holds a '/'.
   */
  lemma {:induction false} OutputFileNameInOutputDir(imagePath: string, timestamp: string)
    ensures var name, stem := OutputFileName(imagePath, timestamp), Stem(Basename(imagePath));
      && name[..|"output/"|] == "output/"
      && name[|"output/"|..|"output/"| + |stem|] == stem
      && name[|"output/"| + |stem|..] == "_" + timestamp + ".json"
      && '/' !in stem
      && ('/' !in timestamp ==> '/' !in name[|"output/"|..])
  {
    var base := Basename(imagePath);
    AbsentFromPrefix(Stem(base), base, '/');
    OutputNameParts(Stem(base), timestamp);
  }

  /** The parts of "output/" + stem + "_" + timestamp + ".json", for a slash-free stem. */
  lemma {:induction false} OutputNameParts(stem: string, timestamp: string)
    requires '/' !in stem
    ensures var name := "output/" + stem + "_" + timestamp + ".json";
      && name[..|"output/"|] == "output/"
      && name[|"output/"|..|"output/"| + |stem|] == stem
      && name[|"output/"| + |stem|..] == "_" + timestamp + ".json"
      && ('/' !in timestamp ==> '/' !in name[|"output/"|..])
  {
    var tail := stem + "_" + timestamp + ".json";
    var name := "output/" + tail;
    assert name == "output/" + stem + "_" + timestamp + ".json";
    assert name[|"output/"|..] == tail;
    assert tail[..|stem|] == stem;
    assert tail[|stem|..] == "_" + timestamp + ".json";
  }
}
