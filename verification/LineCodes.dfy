/** Batch line codes `#<batch>-<line>`: printing them, finding them in a supplier's text, and telling them
    apart from a request id written out. The regular expressions are modelled over ASCII digits and spaces. */
module LineCodes {
  import opened Wrappers
  import opened Decimals
  import opened Texts

  /** `\w` for ASCII and Cyrillic letters. */
  predicate IsWord(c: char) {
    IsDigit(c) || 'a' <= c <= 'z' || 'A' <= c <= 'Z' || c == '_' || '\U{400}' <= c <= '\U{4ff}'
  }

  /** A line number with at least two digits. */
  function TwoDigits(n: nat): string {
    if n < 10 then "0" + Digits(n) else Digits(n)
  }

  function LineCode(batch: nat, line: nat): string {
    "#" + Digits(batch) + "-" + TwoDigits(line)
  }

  // ----- Matching -----

  /** End of the run of digits starting at `p`. */
  function DigitsEnd(t: string, p: nat): (e: nat)
    requires p <= |t|
    ensures p <= e <= |t| && AllDigits(t[p..e]) && (e < |t| ==> !IsDigit(t[e]))
    decreases |t| - p
  {
    if p < |t| && IsDigit(t[p]) then
      var e := DigitsEnd(t, p + 1);
      assert t[p..e] == [t[p]] + t[p + 1..e];
      e
    else p
  }

  predicate AllSpace(t: string, p: nat, e: nat)
    requires e <= |t|
  {
    forall i :: p <= i < e ==> IsSpace(t[i])
  }

  function SpacesEnd(t: string, p: nat): (e: nat)
    requires p <= |t|
    ensures p <= e <= |t| && AllSpace(t, p, e) && (e < |t| ==> !IsSpace(t[e]))
    decreases |t| - p
  {
    if p < |t| && IsSpace(t[p]) then SpacesEnd(t, p + 1) else p
  }

  /** `#\s*(\d+)` at `p`: the number and where it ends. */
  function NumberAfterHash(t: string, p: nat): Option<(nat, nat)> {
    if p >= |t| || t[p] != '#' then None
    else
      var d := SpacesEnd(t, p + 1);
      var e := DigitsEnd(t, d);
      if e == d then None else Some((Value(t[d..e]), e))
  }

  /** `#\s*(\d+)\s*-\s*(\d{2})\b` at `p`. */
  function BatchLineAt(t: string, p: nat): Option<(nat, nat)> {
    var number := NumberAfterHash(t, p);
    if number.None? || number.value.1 > |t| then None
    else
      var dash := SpacesEnd(t, number.value.1);
      if dash >= |t| || t[dash] != '-' then None
      else
        var q := SpacesEnd(t, dash + 1);
        if q + 2 > |t| || !IsDigit(t[q]) || !IsDigit(t[q + 1]) || (q + 2 < |t| && IsWord(t[q + 2])) then None
        else Some((number.value.0, 10 * DigitValue(t[q]) + DigitValue(t[q + 1])))
  }

  /** The leftmost match at or after `p`. */
  function FindBatchLine(t: string, p: nat): Option<(nat, nat)>
    decreases |t| - p
  {
    if p >= |t| then None
    else if BatchLineAt(t, p).Some? then BatchLineAt(t, p)
    else FindBatchLine(t, p + 1)
  }

  function FindNumberAfterHash(t: string, p: nat): Option<nat>
    decreases |t| - p
  {
    if p >= |t| then None
    else if NumberAfterHash(t, p).Some? then Some(NumberAfterHash(t, p).value.0)
    else FindNumberAfterHash(t, p + 1)
  }

  /** The canonical code of the first batch line mentioned in the text. */
  function ParseBatchLineCode(raw: string): Option<string> {
    var m := FindBatchLine(Strip(raw), 0);
    if m.None? then None else Some(LineCode(m.value.0, m.value.1))
  }

  /** `pre` at `p`, in any case of its letters, and where the spaces after it end. */
  function WordAt(t: string, p: nat, pre: string): Option<nat> {
    if p + |pre| > |t| || !SameText(t[p..p + |pre|], pre) then None else Some(SpacesEnd(t, p + |pre|))
  }

  /** The word for a request in one of its cases, an optional number sign, and the number, at `p`. */
  function RequestWordAt(t: string, p: nat): Option<nat> {
    var word := WordAt(t, p, "заявк");
    if word.None? || p + 5 >= |t| || LowerChar(t[p + 5]) !in "аеи" then None
    else
      var sign := SpacesEnd(t, p + 6);
      var d := if sign < |t| && (t[sign] == '#' || t[sign] == '№') then SpacesEnd(t, sign + 1) else sign;
      var e := DigitsEnd(t, d);
      if e == d then None else Some(Value(t[d..e]))
  }

  /** `на #<number>` at `p`, followed by `цена` when `priced`. */
  function ForHashAt(t: string, p: nat, priced: bool): Option<nat> {
    var hash := WordAt(t, p, "на");
    if hash.None? then None
    else
      var number := NumberAfterHash(t, hash.value);
      if number.None? then None
      else if priced && (number.value.1 > |t| || WordAt(t, SpacesEnd(t, number.value.1), "цена").None?) then None
      else Some(number.value.0)
  }

  function FindRequestWord(t: string, p: nat): Option<nat>
    decreases |t| - p
  {
    if p >= |t| then None
    else if RequestWordAt(t, p).Some? then RequestWordAt(t, p)
    else FindRequestWord(t, p + 1)
  }

  function FindForHash(t: string, p: nat, priced: bool): Option<nat>
    decreases |t| - p
  {
    if p >= |t| then None
    else if ForHashAt(t, p, priced).Some? then ForHashAt(t, p, priced)
    else FindForHash(t, p + 1, priced)
  }

  /** The request id a supplier wrote out, by the first of four patterns that is found anywhere in the text; a
      batch line code is never one. */
  function ParseExplicitRequestId(raw: string): Option<nat> {
    var t := Strip(raw);
    if FindBatchLine(t, 0).Some? then None
    else if FindNumberAfterHash(t, 0).Some? then FindNumberAfterHash(t, 0)
    else if FindRequestWord(t, 0).Some? then FindRequestWord(t, 0)
    else if FindForHash(t, 0, false).Some? then FindForHash(t, 0, false)
    else FindForHash(t, 0, true)
  }

  lemma {:induction false} HashIsFound(t: string, p: nat, q: nat)
    requires p <= q && NumberAfterHash(t, q).Some?
    ensures FindNumberAfterHash(t, p).Some?
    decreases q - p
  {
    if p < q && NumberAfterHash(t, p).None? {
      HashIsFound(t, p + 1, q);
    }
  }

  lemma {:induction false} NoHashNoForHash(t: string, p: nat, priced: bool)
    requires FindNumberAfterHash(t, 0).None?
    ensures FindForHash(t, p, priced).None?
    decreases |t| - p
  {
    if p < |t| {
      if ForHashAt(t, p, priced).Some? {
        HashIsFound(t, 0, WordAt(t, p, "на").value);
      }
      NoHashNoForHash(t, p + 1, priced);
    }
  }

  /** The last two patterns never decide: whatever they find, the first has found before them. */
  lemma TwoPatternsDecide(raw: string)
    ensures var t := Strip(raw);
            ParseExplicitRequestId(raw) ==
              if FindBatchLine(t, 0).Some? then None
              else if FindNumberAfterHash(t, 0).Some? then FindNumberAfterHash(t, 0)
              else FindRequestWord(t, 0)
  {
    var t := Strip(raw);
    if FindNumberAfterHash(t, 0).None? {
      NoHashNoForHash(t, 0, false);
      NoHashNoForHash(t, 0, true);
    }
  }

  // ----- What the patterns match -----

  /** A run of digits that ends there. */
  predicate DigitRun(t: string, d: nat, e: nat) {
    d < e <= |t| && AllDigits(t[d..e]) && (e < |t| ==> !IsDigit(t[e]))
  }

  /** A hash at `p`, spaces, and a run of digits from `d` to `e`. */
  predicate HashNumber(t: string, p: nat, d: nat, e: nat) {
    p < d && DigitRun(t, d, e) && t[p] == '#' && AllSpace(t, p + 1, d)
  }

  /** Spaces, a dash at `g`, spaces, and exactly two digits at `h` that end a word. */
  predicate DashLine(t: string, e: nat, g: nat, h: nat) {
    && e <= g < h && h + 2 <= |t| && t[g] == '-' && AllSpace(t, e, g) && AllSpace(t, g + 1, h)
    && IsDigit(t[h]) && IsDigit(t[h + 1]) && (h + 2 < |t| ==> !IsWord(t[h + 2]))
  }

  lemma SpacesEndIs(t: string, p: nat, e: nat)
    requires p <= e <= |t| && AllSpace(t, p, e) && (e < |t| ==> !IsSpace(t[e]))
    ensures SpacesEnd(t, p) == e
  {
  }

  lemma HashNumberIs(t: string, p: nat, d: nat, e: nat)
    requires HashNumber(t, p, d, e)
    ensures NumberAfterHash(t, p) == Some((Value(t[d..e]), e))
  {
    assert t[d] == t[d..e][0];
    SpacesEndIs(t, p + 1, d);
    DigitsEndAt(t, d, e);
  }

  /** `#\s*(\d+)`: what the number pattern finds at `p`. */
  lemma NumberWhen(t: string, p: nat, n: nat, e: nat)
    ensures NumberAfterHash(t, p) == Some((n, e)) <==> exists d: nat :: HashNumber(t, p, d, e) && Value(t[d..e]) == n
  {
    if NumberAfterHash(t, p) == Some((n, e)) {
      assert HashNumber(t, p, SpacesEnd(t, p + 1), e);
    }
    if d: nat :| HashNumber(t, p, d, e) && Value(t[d..e]) == n {
      HashNumberIs(t, p, d, e);
    }
  }

  ghost predicate LineMatch(t: string, p: nat, batch: nat, line: nat, d: nat, e: nat, g: nat, h: nat) {
    && HashNumber(t, p, d, e) && Value(t[d..e]) == batch
    && DashLine(t, e, g, h) && line == 10 * DigitValue(t[h]) + DigitValue(t[h + 1])
  }

  lemma LineMatchIs(t: string, p: nat, batch: nat, line: nat, d: nat, e: nat, g: nat, h: nat)
    requires LineMatch(t, p, batch, line, d, e, g, h)
    ensures BatchLineAt(t, p) == Some((batch, line))
  {
    HashNumberIs(t, p, d, e);
    SpacesEndIs(t, e, g);
    SpacesEndIs(t, g + 1, h);
  }

  /** `#\s*(\d+)\s*-\s*(\d{2})\b`: what the line-code pattern finds at `p`. */
  lemma LineCodeWhen(t: string, p: nat, batch: nat, line: nat)
    ensures BatchLineAt(t, p) == Some((batch, line)) <==>
            exists d: nat, e: nat, g: nat, h: nat :: LineMatch(t, p, batch, line, d, e, g, h)
  {
    if BatchLineAt(t, p) == Some((batch, line)) {
      var d, e := SpacesEnd(t, p + 1), NumberAfterHash(t, p).value.1;
      var g := SpacesEnd(t, e);
      assert LineMatch(t, p, batch, line, d, e, g, SpacesEnd(t, g + 1));
    }
    if d: nat, e: nat, g: nat, h: nat :| LineMatch(t, p, batch, line, d, e, g, h) {
      LineMatchIs(t, p, batch, line, d, e, g, h);
    }
  }

  /** The word for a request in one of its three cases at `p`, spaces, perhaps a number sign at `a` and more spaces,
      and a run of digits from `d` to `e`. */
  ghost predicate WordMatch(t: string, p: nat, a: nat, d: nat, e: nat) {
    && p + 6 <= a <= d && DigitRun(t, d, e)
    && SameText(t[p..p + 5], "заявк") && LowerChar(t[p + 5]) in "аеи" && AllSpace(t, p + 6, a)
    && (a == d || ((t[a] == '#' || t[a] == '№') && AllSpace(t, a + 1, d)))
  }

  lemma WordMatchIs(t: string, p: nat, a: nat, d: nat, e: nat)
    requires WordMatch(t, p, a, d, e)
    ensures RequestWordAt(t, p) == Some(Value(t[d..e]))
  {
    assert t[d] == t[d..e][0];
    SpacesEndIs(t, p + 6, a);
    if a < d {
      SpacesEndIs(t, a + 1, d);
    }
    DigitsEndAt(t, d, e);
  }

  /** `заявк[аеи]\s*[#№]?\s*(\d+)`: what the word pattern finds at `p`. */
  lemma RequestWordWhen(t: string, p: nat, n: nat)
    ensures RequestWordAt(t, p) == Some(n) <==>
            exists a: nat, d: nat, e: nat :: WordMatch(t, p, a, d, e) && Value(t[d..e]) == n
  {
    if RequestWordAt(t, p) == Some(n) {
      var a := SpacesEnd(t, p + 6);
      var d := if a < |t| && (t[a] == '#' || t[a] == '№') then SpacesEnd(t, a + 1) else a;
      assert WordMatch(t, p, a, d, DigitsEnd(t, d));
    }
    if a: nat, d: nat, e: nat :| WordMatch(t, p, a, d, e) && Value(t[d..e]) == n {
      WordMatchIs(t, p, a, d, e);
    }
  }

  /** The searches answer with the leftmost match, or find none where there is none. */
  lemma {:induction false} LeftmostNumber(t: string, p: nat, q: nat)
    requires p <= q < |t| && NumberAfterHash(t, q).Some? && forall k: nat | p <= k < q :: NumberAfterHash(t, k).None?
    ensures FindNumberAfterHash(t, p) == Some(NumberAfterHash(t, q).value.0)
    decreases q - p
  {
    if p < q {
      LeftmostNumber(t, p + 1, q);
    }
  }

  lemma {:induction false} NoNumber(t: string, p: nat)
    requires forall k: nat | p <= k < |t| :: NumberAfterHash(t, k).None?
    ensures FindNumberAfterHash(t, p).None?
    decreases |t| - p
  {
    if p < |t| {
      NoNumber(t, p + 1);
    }
  }

  lemma {:induction false} LeftmostWord(t: string, p: nat, q: nat)
    requires p <= q < |t| && RequestWordAt(t, q).Some? && forall k: nat | p <= k < q :: RequestWordAt(t, k).None?
    ensures FindRequestWord(t, p) == RequestWordAt(t, q)
    decreases q - p
  {
    if p < q {
      LeftmostWord(t, p + 1, q);
    }
  }

  lemma {:induction false} NoWord(t: string, p: nat)
    requires forall k: nat | p <= k < |t| :: RequestWordAt(t, k).None?
    ensures FindRequestWord(t, p).None?
    decreases |t| - p
  {
    if p < |t| {
      NoWord(t, p + 1);
    }
  }

  lemma {:induction false} LeftmostLine(t: string, p: nat, q: nat)
    requires p <= q < |t| && BatchLineAt(t, q).Some? && forall k: nat | p <= k < q :: BatchLineAt(t, k).None?
    ensures FindBatchLine(t, p) == BatchLineAt(t, q)
    decreases q - p
  {
    if p < q {
      LeftmostLine(t, p + 1, q);
    }
  }

  lemma {:induction false} NoLine(t: string, p: nat)
    requires forall k: nat | p <= k < |t| :: BatchLineAt(t, k).None?
    ensures FindBatchLine(t, p).None?
    decreases |t| - p
  {
    if p < |t| {
      NoLine(t, p + 1);
    }
  }

  // ----- Printed codes -----

  lemma {:induction false} DigitsEndAt(t: string, p: nat, e: nat)
    requires p <= e <= |t| && AllDigits(t[p..e]) && (e < |t| ==> !IsDigit(t[e]))
    ensures DigitsEnd(t, p) == e
    decreases e - p
  {
    if p < e {
      assert t[p..e][0] == t[p];
      assert t[p + 1..e] == t[p..e][1..];
      DigitsEndAt(t, p + 1, e);
    }
  }

  /** The hash and the batch number in front of a printed code, whatever follows the dash. */
  lemma CodeNumber(batch: nat, tail: string)
    ensures var t := "#" + Digits(batch) + "-" + tail;
            && NumberAfterHash(t, 0) == Some((batch, 1 + |Digits(batch)|))
            && t[1 + |Digits(batch)|] == '-' && t[2 + |Digits(batch)|..] == tail
  {
    var t, n := "#" + Digits(batch) + "-" + tail, |Digits(batch)|;
    assert t[1..1 + n] == Digits(batch);
    assert t[1] == Digits(batch)[0];
    DigitsEndAt(t, 1, 1 + n);
    ValueOfDigits(batch);
  }

  lemma TwoDigitsValue(line: nat)
    requires line <= 99
    ensures var s := TwoDigits(line);
            |s| == 2 && IsDigit(s[0]) && IsDigit(s[1]) && 10 * DigitValue(s[0]) + DigitValue(s[1]) == line
  {
    DigitsLength(line);
    if line >= 10 {
      assert Digits(line) == Digits(line / 10) + [DigitChar(line % 10)];
    }
  }

  lemma BatchLineIs(t: string, batch: nat, line: nat, q: nat)
    requires 1 <= q && q + 2 <= |t| && NumberAfterHash(t, 0) == Some((batch, q - 1)) && t[q - 1] == '-'
    requires IsDigit(t[q]) && IsDigit(t[q + 1]) && 10 * DigitValue(t[q]) + DigitValue(t[q + 1]) == line
    requires q + 2 < |t| ==> !IsWord(t[q + 2])
    ensures BatchLineAt(t, 0) == Some((batch, line))
  {
  }

  lemma CharAt(t: string, q: nat, rest: string, i: nat)
    requires q <= |t| && t[q..] == rest && i < |rest|
    ensures q + i < |t| && t[q + i] == rest[i]
  {
  }

  lemma CodeSplits(batch: nat, line: nat, tail: string)
    ensures LineCode(batch, line) + tail == "#" + Digits(batch) + "-" + (TwoDigits(line) + tail)
  {
  }

  /** A printed code at the start of a text is found there, when the text goes on with anything but a word
      character. */
  lemma CodeFound(batch: nat, line: nat, tail: string)
    requires line <= 99 && (tail != "" ==> !IsWord(tail[0]))
    ensures FindBatchLine(LineCode(batch, line) + tail, 0) == Some((batch, line))
  {
    var t, two, q := LineCode(batch, line) + tail, TwoDigits(line), 2 + |Digits(batch)|;
    CodeSplits(batch, line, tail);
    CodeNumber(batch, two + tail);
    TwoDigitsValue(line);
    CharAt(t, q, two + tail, 0);
    CharAt(t, q, two + tail, 1);
    if tail != "" {
      CharAt(t, q, two + tail, 2);
    }
    assert |t| == q + 2 + |tail|;
    BatchLineIs(t, batch, line, q);
  }

  lemma {:induction false} TrimRightKeeps(code: string, tail: string)
    requires code != "" && !IsSpace(code[|code| - 1])
    ensures exists rest :: TrimRight(code + tail) == code + rest && (rest != "" ==> tail != "" && rest[0] == tail[0])
    decreases |tail|
  {
    if tail == "" {
      assert code + tail == code && code == code + "";
      assert TrimRight(code) == code;
    } else if IsSpace(tail[|tail| - 1]) {
      var shorter := tail[..|tail| - 1];
      assert (code + tail)[..|code + tail| - 1] == code + shorter;
      TrimRightKeeps(code, shorter);
    }
  }

  lemma StripKeepsCode(batch: nat, line: nat, tail: string) returns (rest: string)
    ensures Strip(LineCode(batch, line) + tail) == LineCode(batch, line) + rest
    ensures rest != "" ==> tail != "" && rest[0] == tail[0]
  {
    var code := LineCode(batch, line);
    assert TwoDigits(line) != "" && AllDigits(TwoDigits(line));
    assert code[|code| - 1] == TwoDigits(line)[|TwoDigits(line)| - 1];
    assert (code + tail)[0] == '#';
    assert TrimLeft(code + tail) == code + tail;
    TrimRightKeeps(code, tail);
    rest :| TrimRight(code + tail) == code + rest && (rest != "" ==> tail != "" && rest[0] == tail[0]);
  }

  /** For line numbers up to 99, a printed code leading a line is read back as itself, and the line is never
      taken for an explicit request id. */
  lemma LineCodeRoundTrip(batch: nat, line: nat, tail: string)
    requires line <= 99 && (tail != "" ==> !IsWord(tail[0]))
    ensures ParseBatchLineCode(LineCode(batch, line) + tail) == Some(LineCode(batch, line))
    ensures ParseExplicitRequestId(LineCode(batch, line) + tail).None?
  {
    var rest := StripKeepsCode(batch, line, tail);
    CodeFound(batch, line, rest);
  }

  lemma {:induction false} NoHashNoMatch(t: string, p: nat)
    requires forall i :: p <= i < |t| ==> t[i] != '#'
    ensures FindBatchLine(t, p).None?
    decreases |t| - p
  {
    if p < |t| {
      NoHashNoMatch(t, p + 1);
    }
  }

  lemma LongCodeNotFound(batch: nat, line: nat)
    requires line >= 100
    ensures FindBatchLine(LineCode(batch, line), 0).None?
    ensures FindNumberAfterHash(LineCode(batch, line), 0) == Some(batch)
  {
    var t, q := LineCode(batch, line), 2 + |Digits(batch)|;
    CodeNumber(batch, Digits(line));
    DigitsLength(line);
    assert t == "#" + Digits(batch) + "-" + Digits(line);
    assert t[q..] == Digits(line);
    assert t[q] == t[q..][0] && t[q + 2] == t[q..][2];
    assert BatchLineAt(t, 0).None?;
    assert t[1..] == Digits(batch) + "-" + Digits(line);
    forall i | 1 <= i < |t| ensures t[i] != '#' {
      assert t[i] == t[1..][i - 1];
    }
    NoHashNoMatch(t, 1);
  }

  /** A printed code reads back exactly up to line 99. From line 100 on the parser does not see a line code at
      all, and takes the batch number for a request id. */
  lemma LineCodeLimit(batch: nat, line: nat)
    ensures ParseBatchLineCode(LineCode(batch, line)) == Some(LineCode(batch, line)) <==> line <= 99
    ensures ParseExplicitRequestId(LineCode(batch, line)) == if line <= 99 then None else Some(batch)
  {
    var code := LineCode(batch, line);
    assert code + "" == code;
    if line <= 99 {
      LineCodeRoundTrip(batch, line, "");
    } else {
      var rest := StripKeepsCode(batch, line, "");
      assert code + rest == code;
      LongCodeNotFound(batch, line);
    }
  }
}
