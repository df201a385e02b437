/**
 * Extraction of JSON from free-form model output (src/parse.rs): the ordered
 * fallback of `extract_and_parse_json`, the fenced-block finder, the brace-balanced
 * object scanner, the one-shot bracket repair, the typed prompt and the schema
 * type names.
 *
 * Both scanners track the same two flags: inside a string literal, and "the next
 * character is escaped". They are modelled once (`LexStep`, `LexFrom`); a character
 * is *structural* when neither flag is set before it, i.e. it lies outside every
 * string and is not escaped. The scanning methods are proved equal to the
 * specification functions, and the lemmas state what those functions mean.
 */
module Parse {
  import opened Wrappers
  import opened Json
  import opened Text

  // ---------------------------------------------------------------------------
  // String tracking shared by the two scanners

  /** The flags both scanners carry from one character to the next. */
  datatype Lex = Lex(inString: bool, escape: bool)

  const LexStart := Lex(false, false)

  /** One character: an escaped character is skipped, `\` inside a string escapes the next one, `"` toggles the string flag. */
  function LexStep(st: Lex, c: char): Lex {
    if st.escape then Lex(st.inString, false)
    else if c == '\\' && st.inString then Lex(true, true)
    else if c == '"' then Lex(!st.inString, false)
    else st
  }

  /** The flags after scanning `s[from..k]` from a fresh state. */
  function LexFrom(s: string, from: nat, k: nat): Lex
    requires from <= k <= |s|
    decreases k - from
  {
    if k == from then LexStart else LexStep(LexFrom(s, from, k - 1), s[k - 1])
  }

  /** For a scan started at `from`, the character at `k` is outside every string and not escaped. */
  predicate StructuralFrom(s: string, from: nat, k: nat)
    requires from <= k < |s|
  {
    LexFrom(s, from, k) == LexStart
  }

  /** The character at `k` is outside every string and not escaped. */
  predicate Structural(s: string, k: nat)
    requires k < |s|
  {
    StructuralFrom(s, 0, k)
  }

  /** A scan restarted at a structural position sees exactly what the scan from the start sees. */
  lemma {:induction false} RestartAgrees(s: string, p: nat, k: nat)
    requires p <= k <= |s|
    requires LexFrom(s, 0, p) == LexStart
    ensures LexFrom(s, p, k) == LexFrom(s, 0, k)
    decreases k - p
  {
    if k > p {
      RestartAgrees(s, p, k - 1);
    }
  }

  /** The flags at `k` depend only on the first `k` characters. */
  lemma {:induction false} LexPrefix(s: string, n: nat, k: nat)
    requires k <= n <= |s|
    ensures LexFrom(s[..n], 0, k) == LexFrom(s, 0, k)
    decreases k
  {
    if k > 0 {
      LexPrefix(s, n, k - 1);
    }
  }

  // ---------------------------------------------------------------------------
  // The brace-balanced object scanner (`extract_json_object`)

  /** How the structural character at `k` moves the brace depth. */
  function BraceDelta(t: string, k: nat): int
    requires k < |t|
  {
    if !Structural(t, k) then 0
    else if t[k] == '{' then 1
    else if t[k] == '}' then -1
    else 0
  }

  /** Structural `{` minus structural `}` among the first `k` characters. */
  function DepthAt(t: string, k: nat): int
    requires k <= |t|
    decreases k
  {
    if k == 0 then 0 else DepthAt(t, k - 1) + BraceDelta(t, k - 1)
  }

  lemma {:induction false} DepthPrefix(t: string, n: nat, k: nat)
    requires k <= n <= |t|
    ensures DepthAt(t[..n], k) == DepthAt(t, k)
    decreases k
  {
    if k > 0 {
      DepthPrefix(t, n, k - 1);
      LexPrefix(t, n, k - 1);
    }
  }

  /** The structural `}` at `i` brings the depth back to zero. */
  predicate ClosesAt(t: string, i: nat) {
    i < |t| && Structural(t, i) && t[i] == '}' && DepthAt(t, i) == 1
  }

  /** The first closing position at or after `i`. */
  function FirstClose(t: string, i: nat): (r: Option<nat>)
    ensures r.Some? ==> i <= r.value && ClosesAt(t, r.value)
    ensures r.Some? ==> forall j :: i <= j < r.value ==> !ClosesAt(t, j)
    ensures r.None? ==> forall j :: i <= j ==> !ClosesAt(t, j)
    decreases |t| - i
  {
    if i >= |t| then None
    else if ClosesAt(t, i) then Some(i)
    else FirstClose(t, i + 1)
  }

  /** `extract_json_object` as a function: from the first `{` up to the `}` that balances it. */
  function ExtractObject(text: string): Option<string> {
    match Find(text, "{")
    case None => None
    case Some(start) =>
      match FirstClose(text[start..], 0)
      case None => None
      case Some(i) => Some(text[start..start + i + 1])
  }

  /** `extract_json_object` (src/parse.rs): one pass over the text after the first `{`, counting depth outside strings. */
  method ExtractJsonObject(text: string) returns (r: Option<string>)
    ensures r == ExtractObject(text)
  {
    var found := Find(text, "{");
    if found.None? {
      return None;
    }
    var start := found.value;
    var t := text[start..];
    var depth := 0;
    var inString := false;
    var escapeNext := false;
    var i := 0;
    while i < |t|
      invariant 0 <= i <= |t|
      invariant Lex(inString, escapeNext) == LexFrom(t, 0, i)
      invariant depth == DepthAt(t, i)
      invariant FirstClose(t, 0) == FirstClose(t, i)
    {
      var ch := t[i];
      if escapeNext {
        escapeNext := false;
      } else if ch == '\\' && inString {
        escapeNext := true;
      } else if ch == '"' {
        inString := !inString;
      } else if ch == '{' && !inString {
        depth := depth + 1;
      } else if ch == '}' && !inString {
        depth := depth - 1;
        if depth == 0 {
          assert ClosesAt(t, i);
          return Some(text[start..start + i + 1]);
        }
      }
      i := i + 1;
    }
    return None;
  }

  /** Inside the extracted span the depth never drops to zero before its last character. */
  lemma {:induction false} DepthStaysPositive(t: string, i: nat, k: nat)
    requires 0 < |t| && t[0] == '{'
    requires FirstClose(t, 0) == Some(i)
    requires 1 <= k <= i
    ensures DepthAt(t, k) >= 1
    decreases k
  {
    if k == 1 {
      assert LexFrom(t, 0, 0) == LexStart;
      assert BraceDelta(t, 0) == 1;
    } else {
      DepthStaysPositive(t, i, k - 1);
      assert !ClosesAt(t, k - 1);
    }
  }

  /**
   * What `extract_json_object` returns: the span that starts at the first `{` of the
   * text and ends with `}`, whose depth (braces outside strings, escaped characters
   * skipped) stays positive on every proper prefix and is zero at its end, so a
   * nested object never ends it early.
   */
  lemma ExtractedObjectIsBalanced(text: string)
    requires ExtractObject(text).Some?
    ensures var o := ExtractObject(text).value;
      var start := Find(text, "{").value;
      start + |o| <= |text| && o == text[start..start + |o|] &&
      (forall j :: 0 <= j < start ==> text[j] != '{') &&
      o[0] == '{' && o[|o| - 1] == '}' &&
      (forall k :: 1 <= k < |o| ==> DepthAt(o, k) >= 1) &&
      DepthAt(o, |o|) == 0
  {
    var start := Find(text, "{").value;
    var t := text[start..];
    var i := FirstClose(t, 0).value;
    var o := t[..i + 1];
    assert o == text[start..start + i + 1];
    forall j | 0 <= j < start
      ensures text[j] != '{'
    {
      assert !OccursAt(text, "{", j);
      assert text[j..j + 1] == [text[j]];
    }
    assert text[start..start + 1] == "{";
    assert t[0] == '{';
    forall k | 1 <= k < |o|
      ensures DepthAt(o, k) >= 1
    {
      DepthStaysPositive(t, i, k);
      DepthPrefix(t, i + 1, k);
    }
    DepthPrefix(t, i + 1, i + 1);
    assert ClosesAt(t, i);
  }

  /** `extract_json_object` gives up exactly when there is no `{`, or when the depth never returns to zero. */
  lemma ExtractObjectNone(text: string)
    ensures ExtractObject(text).None? <==>
      (forall j :: 0 <= j < |text| ==> text[j] != '{') ||
      (Find(text, "{").Some? && forall i :: !ClosesAt(text[Find(text, "{").value..], i))
  {
    if Find(text, "{").None? {
      forall j | 0 <= j < |text|
        ensures text[j] != '{'
      {
        assert !OccursAt(text, "{", j);
        assert text[j..j + 1] == [text[j]];
      }
    } else {
      var start := Find(text, "{").value;
      assert text[start..start + 1] == "{";
    }
  }

  // ---------------------------------------------------------------------------
  // The bracket repair (`try_repair_json`)

  /** The first pass of the repair: the last structural `[` among the first `k` characters, forgotten at every structural `]`. */
  function LastOpenAt(s: string, k: nat): (r: Option<nat>)
    requires k <= |s|
    ensures r.Some? ==> r.value < k
    decreases k
  {
    if k == 0 then None
    else if Structural(s, k - 1) && s[k - 1] == '[' then Some(k - 1)
    else if Structural(s, k - 1) && s[k - 1] == ']' then None
    else LastOpenAt(s, k - 1)
  }

  /**
   * The first pass finds a `[` exactly when some structural `[` is followed by no
   * structural bracket at all: the one it reports is that `[`; when it reports none,
   * every structural `[` is closed by a later structural `]`.
   */
  lemma {:induction false} LastOpenMeaning(s: string, k: nat)
    requires k <= |s|
    ensures LastOpenAt(s, k).Some? ==>
      var p := LastOpenAt(s, k).value;
      p < k && Structural(s, p) && s[p] == '[' &&
      forall q :: p < q < k && Structural(s, q) ==> s[q] != '[' && s[q] != ']'
    ensures LastOpenAt(s, k).None? ==>
      forall p :: 0 <= p < k && Structural(s, p) && s[p] == '[' ==>
        exists q :: p < q < k && Structural(s, q) && s[q] == ']'
    decreases k
  {
    if k > 0 {
      LastOpenMeaning(s, k - 1);
      if LastOpenAt(s, k).None? && Structural(s, k - 1) && s[k - 1] == ']' {
        forall p | 0 <= p < k && Structural(s, p) && s[p] == '['
          ensures exists q :: p < q < k && Structural(s, q) && s[q] == ']'
        {
          assert p < k - 1;
        }
      }
    }
  }

  /** The second pass: the first `}` at or after `k` that is structural for a scan restarted at `from`. */
  function FirstBraceFrom(s: string, from: nat, k: nat): (r: Option<nat>)
    requires from <= k <= |s|
    ensures r.Some? ==> k <= r.value < |s| && StructuralFrom(s, from, r.value) && s[r.value] == '}'
    ensures r.Some? ==> forall q :: k <= q < r.value ==> !(StructuralFrom(s, from, q) && s[q] == '}')
    ensures r.None? ==> forall q :: k <= q < |s| ==> !(StructuralFrom(s, from, q) && s[q] == '}')
    decreases |s| - k
  {
    if k == |s| then None
    else if StructuralFrom(s, from, k) && s[k] == '}' then Some(k)
    else FirstBraceFrom(s, from, k + 1)
  }

  /** `s` with `c` inserted before index `i`. */
  function InsertAt(s: string, i: nat, c: char): string
    requires i <= |s|
  {
    s[..i] + [c] + s[i..]
  }

  /** Where the `]` goes once an unclosed `[` was found at `p`, followed by the `,]` clean-up where the source does it. */
  function CloseArray(s: string, p: nat): string
    requires p <= |s|
  {
    match FirstBraceFrom(s, p, p)
    case Some(i) => Replace(InsertAt(s, i + 1, ']'), ",]", "]")
    case None =>
      match RFind(s, '}')
      case Some(j) => Replace(InsertAt(s, j, ']'), ",]", "]")
      case None => s + "]"
  }

  /** `try_repair_json` as a function of the text and of the JSON parser. */
  function Repair(s: string, parse: ValueParser): string {
    if parse(s).Some? then s
    else
      match LastOpenAt(s, |s|)
      case None => s
      case Some(p) => CloseArray(s, p)
  }

  /**
   * `try_repair_json` (src/parse.rs): a pass that remembers the last unclosed `[`,
   * then a pass from it to the next `}`. The source closes the array from inside the
   * second loop; here the pass returns the position and the method closes it.
   */
  method TryRepairJson(input: string, parse: ValueParser) returns (r: string)
    ensures r == Repair(input, parse)
  {
    if parse(input).Some? {
      return input;
    }
    var lastOpenArrayPos := FindLastOpenArray(input);
    if lastOpenArrayPos.None? {
      return input;
    }
    var openPos := lastOpenArrayPos.value;
    var brace := FindBraceAfter(input, openPos);
    if brace.Some? {
      var j := brace.value;
      var repaired := input[..j + 1] + "]" + input[j + 1..];
      assert repaired == InsertAt(input, j + 1, ']');
      repaired := Replace(repaired, ",]", "]");
      return repaired;
    }
    var lastBrace := RFind(input, '}');
    if lastBrace.Some? {
      var repaired := input[..lastBrace.value] + "]" + input[lastBrace.value..];
      assert repaired == InsertAt(input, lastBrace.value, ']');
      return Replace(repaired, ",]", "]");
    }
    return input + "]";
  }

  /** The first pass of `try_repair_json`: every structural `[` is remembered and every structural `]` forgets it. */
  method FindLastOpenArray(input: string) returns (lastOpenArrayPos: Option<nat>)
    ensures lastOpenArrayPos == LastOpenAt(input, |input|)
  {
    var inString := false;
    var escape := false;
    lastOpenArrayPos := None;
    var i := 0;
    while i < |input|
      invariant 0 <= i <= |input|
      invariant Lex(inString, escape) == LexFrom(input, 0, i)
      invariant lastOpenArrayPos == LastOpenAt(input, i)
    {
      var ch := input[i];
      if escape {
        escape := false;
      } else if ch == '\\' && inString {
        escape := true;
      } else if ch == '"' {
        inString := !inString;
      } else if !inString {
        if ch == '[' {
          lastOpenArrayPos := Some(i);
        }
        if ch == ']' {
          lastOpenArrayPos := None;
        }
      }
      i := i + 1;
    }
  }

  /** The second pass of `try_repair_json`: a fresh scan from the open `[` up to the first `}` outside strings. */
  method FindBraceAfter(input: string, openPos: nat) returns (brace: Option<nat>)
    requires openPos <= |input|
    ensures brace == FirstBraceFrom(input, openPos, openPos)
  {
    var inString, escape := false, false;
    var j := openPos;
    while j < |input|
      invariant openPos <= j <= |input|
      invariant Lex(inString, escape) == LexFrom(input, openPos, j)
      invariant FirstBraceFrom(input, openPos, openPos) == FirstBraceFrom(input, openPos, j)
    {
      var ch := input[j];
      if escape {
        escape := false;
      } else if ch == '\\' && inString {
        escape := true;
      } else if ch == '"' {
        inString := !inString;
      } else if !inString && ch == '}' {
        assert StructuralFrom(input, openPos, j);
        return Some(j);
      }
      j := j + 1;
    }
    return None;
  }

  lemma InsertAddsOne(s: string, i: nat, c: char)
    requires i <= |s|
    ensures Count(InsertAt(s, i, c), c) == Count(s, c) + 1
  {
    CountAppend(s[..i] + [c], s[i..], c);
    CountAppend(s[..i], [c], c);
    assert s == s[..i] + s[i..];
    CountAppend(s[..i], s[i..], c);
  }

  /**
   * The repair changes its input exactly when the input does not parse and has a
   * trailing unclosed `[`; it then adds exactly one `]` (the `,]` clean-up removes
   * commas only).
   */
  lemma RepairChangesOnlyOpenArrays(s: string, parse: ValueParser)
    ensures Repair(s, parse) != s <==> parse(s).None? && LastOpenAt(s, |s|).Some?
    ensures Repair(s, parse) != s ==> Count(Repair(s, parse), ']') == Count(s, ']') + 1
  {
    if parse(s).None? && LastOpenAt(s, |s|).Some? {
      var p := LastOpenAt(s, |s|).value;
      assert Repair(s, parse) == CloseArray(s, p);
      CloseArrayAddsOne(s, p);
    }
  }

  /** Each of the three placements adds exactly one `]`. */
  lemma CloseArrayAddsOne(s: string, p: nat)
    requires p <= |s|
    ensures Count(CloseArray(s, p), ']') == Count(s, ']') + 1
  {
    match FirstBraceFrom(s, p, p)
    case Some(i) =>
      InsertAddsOne(s, i + 1, ']');
      ReplaceKeepsClosers(InsertAt(s, i + 1, ']'));
    case None =>
      match RFind(s, '}')
      case Some(j) =>
        InsertAddsOne(s, j, ']');
        ReplaceKeepsClosers(InsertAt(s, j, ']'));
      case None =>
        CountAppend(s, "]", ']');
  }


  /**
   * Where the `]` goes: right after the first structural `}` at or after the open
   * `[`; failing that before the last `}` of the text; failing that at the end.
   */
  lemma RepairPlacement(s: string, parse: ValueParser)
    requires parse(s).None? && LastOpenAt(s, |s|).Some?
    ensures var p := LastOpenAt(s, |s|).value;
      var b := FirstBraceFrom(s, p, p);
      (b.Some? ==>
        p < b.value && Structural(s, b.value) && s[b.value] == '}' &&
        (forall q :: p <= q < b.value && Structural(s, q) ==> s[q] != '}') &&
        Repair(s, parse) == Replace(s[..b.value + 1] + "]" + s[b.value + 1..], ",]", "]")) &&
      (b.None? ==>
        (forall q :: p <= q < |s| && Structural(s, q) ==> s[q] != '}') &&
        Repair(s, parse) ==
          if RFind(s, '}').Some? then Replace(s[..RFind(s, '}').value] + "]" + s[RFind(s, '}').value..], ",]", "]")
          else s + "]")
  {
    LastOpenIsStructural(s);
    BraceAfterOpen(s, LastOpenAt(s, |s|).value);
    RepairText(s, parse);
  }

  /** The structural facts about the `}` the second pass looks for. */
  lemma BraceAfterOpen(s: string, p: nat)
    requires p < |s| && Structural(s, p) && s[p] == '['
    ensures var b := FirstBraceFrom(s, p, p);
      (b.Some? ==>
        p < b.value && Structural(s, b.value) && s[b.value] == '}' &&
        (forall q :: p <= q < b.value && Structural(s, q) ==> s[q] != '}')) &&
      (b.None? ==> forall q :: p <= q < |s| && Structural(s, q) ==> s[q] != '}')
  {
    StructuralAfter(s, p);
  }

  /** The repaired text in each of the three placements. */
  lemma RepairText(s: string, parse: ValueParser)
    requires parse(s).None? && LastOpenAt(s, |s|).Some?
    ensures var b := FirstBraceFrom(s, LastOpenAt(s, |s|).value, LastOpenAt(s, |s|).value);
      (b.Some? ==> Repair(s, parse) == Replace(s[..b.value + 1] + "]" + s[b.value + 1..], ",]", "]")) &&
      (b.None? ==>
         Repair(s, parse) ==
           (if RFind(s, '}').Some? then Replace(s[..RFind(s, '}').value] + "]" + s[RFind(s, '}').value..], ",]", "]")
            else s + "]"))
  {
    var p := LastOpenAt(s, |s|).value;
    assert Repair(s, parse) == CloseArray(s, p);
    CloseArrayText(s, p);
  }

  lemma CloseArrayText(s: string, p: nat)
    requires p <= |s|
    ensures var b := FirstBraceFrom(s, p, p);
      (b.Some? ==> CloseArray(s, p) == Replace(s[..b.value + 1] + "]" + s[b.value + 1..], ",]", "]")) &&
      (b.None? ==>
         CloseArray(s, p) ==
           (if RFind(s, '}').Some? then Replace(s[..RFind(s, '}').value] + "]" + s[RFind(s, '}').value..], ",]", "]")
            else s + "]"))
  {
    var b := FirstBraceFrom(s, p, p);
    if b.Some? {
      assert InsertAt(s, b.value + 1, ']') == s[..b.value + 1] + "]" + s[b.value + 1..];
    } else if RFind(s, '}').Some? {
      var j := RFind(s, '}').value;
      assert InsertAt(s, j, ']') == s[..j] + "]" + s[j..];
    }
  }


  lemma LastOpenIsStructural(s: string)
    requires LastOpenAt(s, |s|).Some?
    ensures LastOpenAt(s, |s|).value < |s|
    ensures Structural(s, LastOpenAt(s, |s|).value) && s[LastOpenAt(s, |s|).value] == '['
  {
    LastOpenMeaning(s, |s|);
  }

  /** After a structural position, restarting the scan there does not change which positions are structural. */
  lemma StructuralAfter(s: string, p: nat)
    requires p < |s| && Structural(s, p)
    ensures forall q :: p <= q < |s| ==> (StructuralFrom(s, p, q) <==> Structural(s, q))
  {
    forall q | p <= q < |s|
      ensures LexFrom(s, p, q) == LexFrom(s, 0, q)
    {
      RestartAgrees(s, p, q);
    }
  }

  // ---------------------------------------------------------------------------
  // Fenced code blocks (`extract_json_from_code_block`)

  /** `i` is the first occurrence of `pat` in `text` at or after `from`. */
  ghost predicate FirstFrom(text: string, pat: string, from: int, i: int) {
    from <= i && OccursAt(text, pat, i) && forall j :: from <= j < i ==> !OccursAt(text, pat, j)
  }

  /** The first ```json sits at `s` and the first ``` after its tag at `e`. */
  ghost predicate TaggedFenceAt(text: string, s: nat, e: nat) {
    FirstFrom(text, "```json", 0, s) && FirstFrom(text, "```", s + 7, e)
  }

  /**
   * The first ``` sits at `s`; its content starts at `n`, just past the first line
   * feed after the three backticks (or right after them when no line feed follows);
   * the first ``` from `n` on sits at `e`.
   */
  ghost predicate PlainFenceAt(text: string, s: nat, n: nat, e: nat) {
    FirstFrom(text, "```", 0, s) &&
    (FirstFrom(text, "\n", s + 3, n - 1) || (n == s + 3 && forall j :: s + 3 <= j ==> !OccursAt(text, "\n", j))) &&
    FirstFrom(text, "```", n, e)
  }

  /** `FindFrom` finds exactly the first occurrence at or after its start. */
  lemma FindFromMeaning(text: string, pat: string, from: nat, i: int)
    ensures FirstFrom(text, pat, from, i) <==> FindFrom(text, pat, from).Some? && FindFrom(text, pat, from).value == i
  {
  }

  /** Where the content of a plain fence starts: past the first line feed from `from` on, or at `from`. */
  function ContentStart(text: string, from: nat): nat {
    match FindFrom(text, "\n", from)
    case Some(p) => p + 1
    case None => from
  }

  lemma ContentStartMeaning(text: string, from: nat, n: int)
    ensures (FirstFrom(text, "\n", from, n - 1) || (n == from && forall j :: from <= j ==> !OccursAt(text, "\n", j)))
            <==> n == ContentStart(text, from)
  {
    FindFromMeaning(text, "\n", from, n - 1);
    if FindFrom(text, "\n", from).Some? {
      assert OccursAt(text, "\n", FindFrom(text, "\n", from).value);
    }
  }

  /** The searches of the ```json branch land on the positions the description names. */
  lemma TaggedFenceFound(text: string, s: nat, e: nat)
    requires TaggedFenceAt(text, s, e)
    ensures Find(text, "```json") == Some(s) && FindFrom(text, "```", s + 7) == Some(e)
  {
    FindFromMeaning(text, "```json", 0, s);
    FindFromMeaning(text, "```", s + 7, e);
  }

  /** Every tagged fence the description admits is the one the searches find. */
  lemma TaggedFencesFound(text: string)
    ensures forall s: nat, e: nat :: TaggedFenceAt(text, s, e) ==>
      Find(text, "```json") == Some(s) && FindFrom(text, "```", s + 7) == Some(e)
  {
    forall s: nat, e: nat | TaggedFenceAt(text, s, e)
      ensures Find(text, "```json") == Some(s) && FindFrom(text, "```", s + 7) == Some(e)
    {
      TaggedFenceFound(text, s, e);
    }
  }

  /** The searches of the plain branch land on the positions the description names. */
  lemma PlainFenceFound(text: string, s: nat, n: nat, e: nat)
    requires PlainFenceAt(text, s, n, e)
    ensures Find(text, "```") == Some(s) && ContentStart(text, s + 3) == n && FindFrom(text, "```", n) == Some(e)
  {
    FindFromMeaning(text, "```", 0, s);
    ContentStartMeaning(text, s + 3, n);
    FindFromMeaning(text, "```", n, e);
  }

  /** Every plain fence the description admits is the one the searches find. */
  lemma PlainFencesFound(text: string)
    ensures forall s: nat, n: nat, e: nat :: PlainFenceAt(text, s, n, e) ==>
      Find(text, "```") == Some(s) && ContentStart(text, s + 3) == n && FindFrom(text, "```", n) == Some(e)
  {
    forall s: nat, n: nat, e: nat | PlainFenceAt(text, s, n, e)
      ensures Find(text, "```") == Some(s) && ContentStart(text, s + 3) == n && FindFrom(text, "```", n) == Some(e)
    {
      PlainFenceFound(text, s, n, e);
    }
  }

  /** The ```json branch: the text between the tag and the next ```, when both are present. */
  function TaggedBlock(text: string): Option<string> {
    match Find(text, "```json")
    case None => None
    case Some(start) =>
      match FindFrom(text, "```", start + 7)
      case None => None
      case Some(end) => Some(Trim(text[start + 7..end]))
  }

  /** The ```json branch finds a block exactly when a tagged fence is closed, and then returns its trimmed content. */
  lemma TaggedBlockMeaning(text: string)
    ensures TaggedBlock(text).Some? ==>
      exists s: nat, e: nat :: TaggedFenceAt(text, s, e) && TaggedBlock(text).value == Trim(text[s + 7..e])
    ensures TaggedBlock(text).None? ==> forall s: nat, e: nat :: !TaggedFenceAt(text, s, e)
  {
    if TaggedBlock(text).Some? {
      TaggedBlockFound(text);
    } else {
      TaggedBlockNotFound(text);
    }
  }

  lemma TaggedBlockFound(text: string)
    requires TaggedBlock(text).Some?
    ensures exists s: nat, e: nat :: TaggedFenceAt(text, s, e) && TaggedBlock(text).value == Trim(text[s + 7..e])
  {
    var s := Find(text, "```json").value;
    var e := FindFrom(text, "```", s + 7).value;
    FindFromMeaning(text, "```json", 0, s);
    FindFromMeaning(text, "```", s + 7, e);
    assert TaggedBlock(text) == Some(Trim(text[s + 7..e]));
    assert TaggedFenceAt(text, s, e);
  }

  lemma TaggedBlockNotFound(text: string)
    requires TaggedBlock(text).None?
    ensures forall s: nat, e: nat :: !TaggedFenceAt(text, s, e)
  {
    TaggedFencesFound(text);
  }


  /** The plain branch: after the first ``` skip to the next line, then up to the next ```. */
  function PlainBlock(text: string): Option<string> {
    match Find(text, "```")
    case None => None
    case Some(start) =>
      var newlinePos := ContentStart(text, start + 3);
      match FindFrom(text, "```", newlinePos)
      case None => None
      case Some(end) => Some(Trim(text[newlinePos..end]))
  }

  /** The plain branch finds a block exactly when the first fence is closed, and then returns its trimmed content. */
  lemma PlainBlockMeaning(text: string)
    ensures PlainBlock(text).Some? ==>
      exists s: nat, n: nat, e: nat :: PlainFenceAt(text, s, n, e) && n <= e && PlainBlock(text).value == Trim(text[n..e])
    ensures PlainBlock(text).None? ==> forall s: nat, n: nat, e: nat :: !PlainFenceAt(text, s, n, e)
  {
    if PlainBlock(text).Some? {
      PlainBlockFound(text);
    } else {
      PlainBlockNotFound(text);
    }
  }

  lemma PlainBlockFound(text: string)
    requires PlainBlock(text).Some?
    ensures exists s: nat, n: nat, e: nat :: PlainFenceAt(text, s, n, e) && n <= e && PlainBlock(text).value == Trim(text[n..e])
  {
    var s := Find(text, "```").value;
    var n := ContentStart(text, s + 3);
    var e := FindFrom(text, "```", n).value;
    ContentStartMeaning(text, s + 3, n);
    assert PlainFenceAt(text, s, n, e);
  }

  lemma PlainBlockNotFound(text: string)
    requires PlainBlock(text).None?
    ensures forall s: nat, n: nat, e: nat :: !PlainFenceAt(text, s, n, e)
  {
    PlainFencesFound(text);
  }


  /**
   * `extract_json_from_code_block`: a closed ```json fence first, then a plain fence.
   * A search in a suffix (`text[from..].find(..)`) is written as `FindFrom(text, .., from)`,
   * which yields the same position counted from the start of `text`.
   */
  function ExtractCodeBlock(text: string): Option<string> {
    if TaggedBlock(text).Some? then TaggedBlock(text) else PlainBlock(text)
  }

  /** A block is found exactly when one of the two kinds of fence is closed; it is that fence's trimmed content. */
  lemma ExtractCodeBlockMeaning(text: string)
    ensures ExtractCodeBlock(text).Some? ==>
      (exists s: nat, e: nat :: TaggedFenceAt(text, s, e) && ExtractCodeBlock(text).value == Trim(text[s + 7..e])) ||
      (exists s: nat, n: nat, e: nat :: PlainFenceAt(text, s, n, e) && n <= e && ExtractCodeBlock(text).value == Trim(text[n..e]))
    ensures ExtractCodeBlock(text).None? ==>
      (forall s: nat, e: nat :: !TaggedFenceAt(text, s, e)) && (forall s: nat, n: nat, e: nat :: !PlainFenceAt(text, s, n, e))
  {
    TaggedBlockMeaning(text);
    PlainBlockMeaning(text);
  }

  /**
   * A ```json fence that is closed wins over any plain fence: the result is the
   * trimmed text between the tag and the next ```.
   */
  lemma TaggedFenceWins(text: string, s: nat, e: nat)
    requires OccursAt(text, "```json", s) && forall j :: 0 <= j < s ==> !OccursAt(text, "```json", j)
    requires s + 7 <= e && OccursAt(text, "```", e) && forall j :: s + 7 <= j < e ==> !OccursAt(text, "```", j)
    ensures ExtractCodeBlock(text) == Some(Trim(text[s + 7..e]))
  {
    FindFromIs(text, "```json", 0, s);
    FindFromIs(text, "```", s + 7, e);
    assert TaggedBlock(text) == Some(Trim(text[s + 7..e]));
  }

  /** A text with a single ``` has no closing fence: no code block is found. */
  lemma UnclosedFenceIsNone(text: string, s: nat)
    requires OccursAt(text, "```", s)
    requires forall j :: OccursAt(text, "```", j) ==> j == s
    ensures ExtractCodeBlock(text) == None
  {
    if Find(text, "```json").Some? {
      var t := Find(text, "```json").value;
      assert text[t..t + 3] == text[t..t + 7][..3];
      assert OccursAt(text, "```", t);
      assert FindFrom(text, "```", t + 7) == None;
    }
    assert Find(text, "```") == Some(s);
  }

  /**
   * Without a closed ```json fence the plain fence decides: the result is the
   * trimmed text from just past the first line feed after the opening ``` up to
   * the next ```.
   */
  lemma PlainFenceWins(text: string, s: nat, n: nat, e: nat)
    requires forall t :: OccursAt(text, "```json", t) ==> forall j :: t + 7 <= j ==> !OccursAt(text, "```", j)
    requires PlainFenceAt(text, s, n, e)
    ensures n <= e && ExtractCodeBlock(text) == Some(Trim(text[n..e]))
  {
    NoClosedTaggedFence(text);
    PlainFenceFound(text, s, n, e);
  }

  /** With no ``` after any ```json tag, the ```json branch finds nothing. */
  lemma NoClosedTaggedFence(text: string)
    requires forall t :: OccursAt(text, "```json", t) ==> forall j :: t + 7 <= j ==> !OccursAt(text, "```", j)
    ensures TaggedBlock(text).None?
  {
    if Find(text, "```json").Some? {
      var t := Find(text, "```json").value;
      assert FindFrom(text, "```", t + 7).None?;
    }
  }



  // ---------------------------------------------------------------------------
  // The ordered fallback (`extract_and_parse_json`)

  const FailurePrefix := "Failed to parse JSON from AI response. Response was: "

  /** The part of the response quoted in the failure message: at most 200 characters, then `...` if cut. */
  function Excerpt(response: string): (r: string)
    ensures |r| <= 203
    ensures |response| <= 200 ==> r == response
    ensures |response| > 200 ==> |r| == 203 && r[..200] == response[..200] && r[200..] == "..."
  {
    if |response| > 200 then response[..200] + "..." else response
  }

  /**
   * The decision chain of `extract_and_parse_json` once the candidate texts are known:
   * the whole trimmed text, the fenced block, the balanced object, and the repaired
   * object, which is tried only when the repair changed the object.
   */
  function Fallback<T>(whole: string, fenced: Option<string>, obj: Option<string>, repaired: string,
                       decode: string -> Option<T>, failure: string): Result<T, string> {
    if decode(whole).Some? then Ok(decode(whole).value)
    else if fenced.Some? && decode(fenced.value).Some? then Ok(decode(fenced.value).value)
    else if obj.Some? && decode(obj.value).Some? then Ok(decode(obj.value).value)
    else if obj.Some? && repaired != obj.value && decode(repaired).Some? then Ok(decode(repaired).value)
    else Err(failure)
  }

  /** `extract_and_parse_json` (src/parse.rs), for a typed decoder `decode` and the value parser the repair uses. */
  function ExtractAndParseJson<T>(response: string, decode: string -> Option<T>, parse: ValueParser): Result<T, string> {
    var obj := ExtractObject(response);
    Fallback(Trim(response), ExtractCodeBlock(response), obj,
             if obj.Some? then Repair(obj.value, parse) else "",
             decode, FailurePrefix + Excerpt(response))
  }

  /** The candidate texts in the order they are tried. */
  function Candidates(whole: string, fenced: Option<string>, obj: Option<string>, repaired: string): seq<string> {
    [whole]
    + (if fenced.Some? then [fenced.value] else [])
    + (if obj.Some? then [obj.value] + (if repaired != obj.value then [repaired] else []) else [])
  }

  /** The decoding of the first candidate that decodes. */
  function FirstDecoded<T>(candidates: seq<string>, decode: string -> Option<T>): (r: Option<T>)
    ensures r.Some? <==> exists i :: 0 <= i < |candidates| && decode(candidates[i]).Some?
    ensures r.Some? ==> exists i :: 0 <= i < |candidates| && decode(candidates[i]) == r &&
                          forall j :: 0 <= j < i ==> decode(candidates[j]).None?
    decreases |candidates|
  {
    if candidates == [] then None
    else if decode(candidates[0]).Some? then decode(candidates[0])
    else
      var r := FirstDecoded(candidates[1..], decode);
      assert forall i :: 1 <= i < |candidates| ==> candidates[i] == candidates[1..][i - 1];
      r
  }

  lemma {:induction false} FirstDecodedAppend<T>(a: seq<string>, b: seq<string>, decode: string -> Option<T>)
    ensures FirstDecoded(a + b, decode) == if FirstDecoded(a, decode).Some? then FirstDecoded(a, decode) else FirstDecoded(b, decode)
    decreases |a|
  {
    if a == [] {
      assert a + b == b;
    } else {
      assert (a + b)[1..] == a[1..] + b;
      FirstDecodedAppend(a[1..], b, decode);
    }
  }

  /** The chain returns the decoding of the first candidate that decodes, and the failure text when none does. */
  lemma FallbackIsFirstSuccess<T>(whole: string, fenced: Option<string>, obj: Option<string>, repaired: string,
                                  decode: string -> Option<T>, failure: string)
    ensures Fallback(whole, fenced, obj, repaired, decode, failure) ==
      match FirstDecoded(Candidates(whole, fenced, obj, repaired), decode)
      case Some(v) => Ok(v)
      case None => Err(failure)
  {
    var f := if fenced.Some? then [fenced.value] else [];
    var r := if obj.Some? && repaired != obj.value then [repaired] else [];
    var o := if obj.Some? then [obj.value] + r else [];
    assert Candidates(whole, fenced, obj, repaired) == [whole] + f + o;
    FirstDecodedAppend([whole] + f, o, decode);
    FirstDecodedAppend([whole], f, decode);
    FirstDecodedSingle(whole, decode);
    if fenced.Some? {
      FirstDecodedSingle(fenced.value, decode);
    }
    if obj.Some? {
      FirstDecodedAppend([obj.value], r, decode);
      FirstDecodedSingle(obj.value, decode);
      if r != [] {
        FirstDecodedSingle(repaired, decode);
      }
    }
  }

  lemma FirstDecodedSingle<T>(x: string, decode: string -> Option<T>)
    ensures FirstDecoded([x], decode) == decode(x)
  {
    assert [x][1..] == [];
  }

  /**
   * `extract_and_parse_json` returns the first successful decoding among the whole
   * trimmed text, the fenced block, the balanced object and the changed repair of it;
   * when none decodes, the error is the fixed prefix followed by the cut response.
   */
  lemma ParseReturnsFirstSuccess<T>(response: string, decode: string -> Option<T>, parse: ValueParser)
    ensures var obj := ExtractObject(response);
      var repaired := if obj.Some? then Repair(obj.value, parse) else "";
      ExtractAndParseJson(response, decode, parse) ==
        match FirstDecoded(Candidates(Trim(response), ExtractCodeBlock(response), obj, repaired), decode)
        case Some(v) => Ok(v)
        case None => Err(FailurePrefix + Excerpt(response))
  {
    var obj := ExtractObject(response);
    var repaired := if obj.Some? then Repair(obj.value, parse) else "";
    FallbackIsFirstSuccess(Trim(response), ExtractCodeBlock(response), obj, repaired, decode, FailurePrefix + Excerpt(response));
  }

  /** Valid JSON as the whole (trimmed) response is returned as such, whatever else the text holds. */
  lemma WholeResponseFirst<T>(response: string, decode: string -> Option<T>, parse: ValueParser)
    requires decode(Trim(response)).Some?
    ensures ExtractAndParseJson(response, decode, parse) == Ok(decode(Trim(response)).value)
  {
  }

  // ---------------------------------------------------------------------------
  // Typed prompt and schema type names

  const TypedPromptHead := "You must respond with ONLY a valid JSON object matching this schema:\n"
  const TypedPromptMiddle := "\n\nUser request: "
  const TypedPromptTail := "\n\nRespond with only the JSON object, no explanation."

  /** `build_typed_prompt`: the schema and the user request, verbatim and in that order, between fixed instructions. */
  function BuildTypedPrompt(schema: string, userMessage: string): (r: string)
    ensures |r| == |TypedPromptHead| + |schema| + |TypedPromptMiddle| + |userMessage| + |TypedPromptTail|
    ensures r[..|TypedPromptHead|] == TypedPromptHead
    ensures r[|TypedPromptHead|..|TypedPromptHead| + |schema|] == schema
    ensures r[|TypedPromptHead| + |schema| + |TypedPromptMiddle|..|r| - |TypedPromptTail|] == userMessage
    ensures r[|r| - |TypedPromptTail|..] == TypedPromptTail
  {
    TypedPromptHead + schema + TypedPromptMiddle + userMessage + TypedPromptTail
  }

  /** The Rust field types `AiSchemaType` is implemented for. */
  datatype SchemaType =
    | StringType
    | I8 | I16 | I32 | I64
    | U8 | U16 | U32 | U64
    | F32 | F64
    | BoolType
    | VecOf(element: SchemaType)
    | OptionOf(inner: SchemaType)

  predicate IsInteger(t: SchemaType) {
    t.I8? || t.I16? || t.I32? || t.I64? || t.U8? || t.U16? || t.U32? || t.U64?
  }

  /** `AiSchemaType::type_name`: one of five names; an optional field is described by its inner type. */
  function TypeName(t: SchemaType): (r: string)
    ensures r in {"string", "integer", "number", "boolean", "array"}
    ensures r == "integer" <==> IsInteger(t) || (t.OptionOf? && TypeName(t.inner) == "integer")
  {
    match t
    case StringType => "string"
    case I8 => "integer"
    case I16 => "integer"
    case I32 => "integer"
    case I64 => "integer"
    case U8 => "integer"
    case U16 => "integer"
    case U32 => "integer"
    case U64 => "integer"
    case F32 => "number"
    case F64 => "number"
    case BoolType => "boolean"
    case VecOf(_) => "array"
    case OptionOf(inner) => TypeName(inner)
  }

  /** However deeply options are nested, the name is that of the innermost type. */
  lemma {:induction false} OptionsAreTransparent(t: SchemaType, depth: nat)
    ensures TypeName(WrapOptions(t, depth)) == TypeName(t)
    decreases depth
  {
    if depth > 0 {
      OptionsAreTransparent(t, depth - 1);
    }
  }

  function WrapOptions(t: SchemaType, depth: nat): SchemaType
    decreases depth
  {
    if depth == 0 then t else OptionOf(WrapOptions(t, depth - 1))
  }
}
