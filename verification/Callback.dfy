/** The callback payload protocol of the inline keyboards: `namespace:action:arg:page`. */
module Callback {
  import opened Decimals
  import opened Texts
  import opened Wrappers

  const MAX_CB := 64

  datatype CallbackData = CallbackData(namespace: string, action: string, arg: int, page: int)

  predicate NameChar(c: char) {
    'a' <= c <= 'z' || IsDigit(c) || c == '_'
  }

  predicate Name(s: string, max: nat) {
    1 <= |s| <= max && forall i :: 0 <= i < |s| ==> NameChar(s[i])
  }

  /** What the model validation accepts. */
  predicate Valid(c: CallbackData) {
    Name(c.namespace, 16) && Name(c.action, 24)
  }

  // ----- The protocol -----

  function Encode(c: CallbackData): (r: Option<string>)
  {
    var data := Join([c.namespace, c.action, Text(c.arg), Text(c.page)]);
    if |data| > MAX_CB then None else Some(data)
  }

  function Build(namespace: string, action: string, arg: Option<int>, page: Option<int>): Option<CallbackData> {
    if arg.None? || page.None? then None
    else
      var c := CallbackData(namespace, action, arg.value, page.value);
      if Valid(c) then Some(c) else None
  }

  function Decode(raw: Option<string>): Option<CallbackData> {
    if raw.None? then None
    else
      var parts := Split(raw.value);
      if |parts| != 4 then None else Build(parts[0], parts[1], PyInt(parts[2]), PyInt(parts[3]))
  }

  /** A payload is read exactly when it has four parts, the names are one to 16 and one to 24 lower-case letters,
      digits or underscores, and `int` reads the other two. */
  lemma DecodesWhen(raw: string)
    ensures var parts := Split(raw);
            Decode(Some(raw)).Some? <==>
              && |parts| == 4 && 1 <= |parts[0]| <= 16 && 1 <= |parts[1]| <= 24
              && (forall c | c in parts[0] || c in parts[1] :: 'a' <= c <= 'z' || '0' <= c <= '9' || c == '_')
              && PyInt(parts[2]).Some? && PyInt(parts[3]).Some?
    ensures Decode(Some(raw)).Some? ==>
              var c, parts := Decode(Some(raw)).value, Split(raw);
              && c.namespace == parts[0] && c.action == parts[1]
              && PyInt(parts[2]) == Some(c.arg) && PyInt(parts[3]) == Some(c.page)
    ensures Decode(None).None?
  {
    var parts := Split(raw);
    if |parts| == 4 {
      assert (forall c | c in parts[0] :: NameChar(c)) <==> forall i :: 0 <= i < |parts[0]| ==> NameChar(parts[0][i]);
      assert (forall c | c in parts[1] :: NameChar(c)) <==> forall i :: 0 <= i < |parts[1]| ==> NameChar(parts[1][i]);
    }
  }

  lemma PartsHaveNoColon(c: CallbackData)
    requires Valid(c)
    ensures var parts := [c.namespace, c.action, Text(c.arg), Text(c.page)];
            Split(Join(parts)) == parts
  {
    TextChars(c.arg);
    TextChars(c.page);
    SplitJoin([c.namespace, c.action, Text(c.arg), Text(c.page)]);
  }

  lemma JoinFour(a: string, b: string, c: string, d: string)
    ensures Join([a, b, c, d]) == a + (":" + (b + (":" + (c + (":" + d)))))
  {
    assert [a, b, c, d][1..] == [b, c, d] && [b, c, d][1..] == [c, d] && [c, d][1..] == [d];
    assert Join([c, d]) == c + (":" + d);
    assert Join([b, c, d]) == b + (":" + (c + (":" + d)));
  }

  lemma NamesSplit(c: CallbackData, arg: string, page: string)
    requires Valid(c) && NoColon(arg) && NoColon(page)
    ensures Split(Join([c.namespace, c.action, arg, page])) == [c.namespace, c.action, arg, page]
  {
    var parts := [c.namespace, c.action, arg, page];
    assert NoColon(c.namespace) && NoColon(c.action);
    SplitJoin(parts);
  }

  /** Any spelling of the two numbers that Python's `int` reads is accepted. */
  lemma AnySpellingAccepted(c: CallbackData, arg: string, page: string)
    requires Valid(c) && NoColon(arg) && NoColon(page)
    ensures Decode(Some(Join([c.namespace, c.action, arg, page])))
            == Build(c.namespace, c.action, PyInt(arg), PyInt(page))
  {
    NamesSplit(c, arg, page);
  }

  lemma TextHasNoColon(n: int)
    ensures NoColon(Text(n))
  {
    TextChars(n);
  }

  /** A payload that can be sent is at most 64 characters and is read back unchanged. */
  lemma RoundTrip(c: CallbackData)
    requires Valid(c) && Encode(c).Some?
    ensures Decode(Encode(c)) == Some(c) && |Encode(c).value| <= 64
  {
    TextHasNoColon(c.arg);
    TextHasNoColon(c.page);
    AnySpellingAccepted(c, Text(c.arg), Text(c.page));
    PyIntText(c.arg);
    PyIntText(c.page);
  }

  predicate Ascii(s: string) {
    forall i :: 0 <= i < |s| ==> s[i] < '\U{80}'
  }

  lemma AsciiAppend(a: string, b: string)
    requires Ascii(a) && Ascii(b)
    ensures Ascii(a + b)
  {
  }

  /** A payload holds ASCII characters only, so its length in characters is its length in bytes. */
  lemma PayloadIsAscii(c: CallbackData)
    requires Valid(c) && Encode(c).Some?
    ensures Ascii(Encode(c).value)
  {
    TextChars(c.arg);
    TextChars(c.page);
    var a, b, x, y := c.namespace, c.action, Text(c.arg), Text(c.page);
    JoinFour(a, b, x, y);
    AsciiAppend(":", y);
    AsciiAppend(x, ":" + y);
    AsciiAppend(":", x + (":" + y));
    AsciiAppend(b, ":" + (x + (":" + y)));
    AsciiAppend(":", b + (":" + (x + (":" + y))));
    AsciiAppend(a, ":" + (b + (":" + (x + (":" + y)))));
  }

  /** Two different callbacks never share a payload. */
  lemma Injective(a: CallbackData, b: CallbackData)
    requires Valid(a) && Valid(b) && Encode(a).Some? && Encode(a) == Encode(b)
    ensures a == b
  {
    RoundTrip(a);
    RoundTrip(b);
  }

  /** Encoding fails exactly on length; with names within their limits that takes more than 21 characters of
      numbers. */
  lemma EncodeFits(c: CallbackData)
    requires Valid(c)
    ensures Encode(c).Some? <==> |c.namespace| + |c.action| + |Text(c.arg)| + |Text(c.page)| + 3 <= 64
    ensures |Text(c.arg)| + |Text(c.page)| <= 21 ==> Encode(c).Some?
  {
    JoinFour(c.namespace, c.action, Text(c.arg), Text(c.page));
  }

  /** The documentation calls the parser strict, but other spellings of the numbers are accepted too: what was
      decoded encodes back to the same payload exactly when both numbers were spelled canonically and the
      payload is not too long. */
  lemma DecodedCanonical(raw: string)
    requires Decode(Some(raw)).Some?
    ensures var parts := Split(raw);
            && |parts| == 4
            && (Encode(Decode(Some(raw)).value) == Some(raw) <==>
                  Canonical(parts[2]) && Canonical(parts[3]) && |raw| <= 64)
  {
    var c, parts := Decode(Some(raw)).value, Split(raw);
    JoinSplit(raw);
    PrintedWhenCanonical(parts[2]);
    PrintedWhenCanonical(parts[3]);
    EncodedWhen(raw, c, parts);
  }

  /** The documentation gives the page as non-negative; nothing checks it. A decoded page is negative exactly when
      the fourth part, spaces aside, starts with a minus and holds a digit other than zero. */
  lemma NegativePageWhen(raw: string)
    requires Decode(Some(raw)).Some?
    ensures |Split(raw)| == 4
    ensures var page := Strip(Split(raw)[3]);
            Decode(Some(raw)).value.page < 0 <==> page != "" && page[0] == '-' && HasNonzero(page)
  {
    NegativeWhen(Split(raw)[3]);
  }

  /** For instance page minus one, under any names. */
  lemma NegativePageAccepted(namespace: string, action: string)
    requires Name(namespace, 16) && Name(action, 24)
    ensures var raw := Some(namespace + ":" + action + ":0:-1");
            var c := CallbackData(namespace, action, 0, -1);
            Encode(c) == raw && Decode(raw) == Some(c)
  {
    var c := CallbackData(namespace, action, 0, -1);
    assert Text(0) == "0" && Text(-1) == "-1";
    JoinFour(namespace, action, "0", "-1");
    assert namespace + (":" + (action + (":" + ("0" + (":" + "-1"))))) == namespace + ":" + action + ":0:-1";
    RoundTrip(c);
  }

  lemma EncodedWhen(raw: string, c: CallbackData, parts: seq<string>)
    requires Valid(c) && |parts| == 4 && Split(raw) == parts && Join(parts) == raw
    requires parts[0] == c.namespace && parts[1] == c.action
    ensures Encode(c) == Some(raw) <==> parts[2] == Text(c.arg) && parts[3] == Text(c.page) && |raw| <= MAX_CB
  {
    PartsHaveNoColon(c);
    SameWhenJoined([c.namespace, c.action, Text(c.arg), Text(c.page)], parts);
    SameFour([c.namespace, c.action, Text(c.arg), Text(c.page)], parts);
  }

  lemma SameWhenJoined(printed: seq<string>, parts: seq<string>)
    requires printed != [] && Split(Join(printed)) == printed && parts != [] && Split(Join(parts)) == parts
    ensures Join(printed) == Join(parts) <==> printed == parts
  {
  }

  lemma SameFour(printed: seq<string>, parts: seq<string>)
    requires |printed| == |parts| == 4 && printed[0] == parts[0] && printed[1] == parts[1]
    ensures printed == parts <==> printed[2] == parts[2] && printed[3] == parts[3]
  {
  }

  /** For instance a leading plus sign: decoded, and never produced by encoding. */
  lemma PlusSignAccepted(c: CallbackData)
    requires Valid(c) && c.arg >= 0
    ensures var raw := Join([c.namespace, c.action, "+" + Digits(c.arg), Text(c.page)]);
            Decode(Some(raw)) == Some(c) && Encode(c) != Some(raw)
  {
    var arg, page := "+" + Digits(c.arg), Text(c.page);
    TextChars(c.page);
    assert NoColon(arg) && NoColon(page);
    AnySpellingAccepted(c, arg, page);
    assert PyInt(arg) == Some(c.arg) by { SignedRead('+', c.arg); }
    assert PyInt(page) == Some(c.page) by { PyIntText(c.page); }
    if Encode(c) == Some(Join([c.namespace, c.action, arg, page])) {
      NamesSplit(c, arg, page);
      PartsHaveNoColon(c);
    }
  }
}
