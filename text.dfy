/** The few Python string operations the answer normaliser relies on, read on ASCII:
    str.isspace, str.strip(), str.split()[0], str.rstrip(chars), str.upper() and sep.join(parts). */
module Text {

  /** Python's str.isspace() for code points below 128: space, \t \n \v \f \r and the separators \x1c..\x1f. */
  predicate IsSpace(c: char) {
    c == ' ' || (9 <= c as int <= 13) || (28 <= c as int <= 31)
  }

  /** str.lstrip(): drop leading whitespace. */
  function LStrip(s: string): string {
    if s != [] && IsSpace(s[0]) then LStrip(s[1..]) else s
  }

  /** str.rstrip(): drop trailing whitespace. */
  function RStrip(s: string): string {
    if s != [] && IsSpace(s[|s| - 1]) then RStrip(s[..|s| - 1]) else s
  }

  /** str.strip(). */
  function Strip(s: string): string {
    RStrip(LStrip(s))
  }

  /** The leading run of non-whitespace characters of t. */
  function Word(t: string): string {
    if t == [] || IsSpace(t[0]) then [] else [t[0]] + Word(t[1..])
  }

  /** s.split()[0]: the first whitespace-delimited word (callers pass a string with a non-space character). */
  function FirstWord(s: string): string {
    Word(LStrip(s))
  }

  /** s.rstrip(chars): drop trailing characters that occur in chars. */
  function RStripAny(s: string, chars: string): string {
    if s != [] && s[|s| - 1] in chars then RStripAny(s[..|s| - 1], chars) else s
  }

  /** str.upper() on one character, ASCII letters only. */
  function UpperChar(c: char): char {
    if 'a' <= c <= 'z' then (c as int - 32) as char else c
  }

  /** str.upper(), character by character. */
  function Upper(s: string): (u: string)
    ensures |u| == |s|
  {
    seq(|s|, i requires 0 <= i < |s| => UpperChar(s[i]))
  }

  /** sep.join(parts). */
  function Join(parts: seq<string>, sep: string): string {
    if parts == [] then ""
    else if |parts| == 1 then parts[0]
    else parts[0] + sep + Join(parts[1..], sep)
  }

  /** lstrip removes a whitespace-only prefix and leaves a suffix that does not start with whitespace. */
  lemma {:induction false} LStripShape(s: string)
    ensures |LStrip(s)| <= |s| && LStrip(s) == s[|s| - |LStrip(s)|..]
    ensures LStrip(s) != [] ==> !IsSpace(LStrip(s)[0])
    ensures forall i :: 0 <= i < |s| - |LStrip(s)| ==> IsSpace(s[i])
  {
    if s != [] && IsSpace(s[0]) {
      var t := s[1..];
      LStripShape(t);
      var k := |s| - |LStrip(t)|;
      assert LStrip(s) == LStrip(t) == t[k - 1..] == s[k..];
      forall i | 0 <= i < k ensures IsSpace(s[i]) {
        if i > 0 { assert s[i] == t[i - 1]; }
      }
    }
  }

  /** rstrip removes a whitespace-only suffix and leaves a prefix that does not end in whitespace. */
  lemma {:induction false} RStripShape(s: string)
    ensures |RStrip(s)| <= |s| && RStrip(s) == s[..|RStrip(s)|]
    ensures RStrip(s) != [] ==> !IsSpace(RStrip(s)[|RStrip(s)| - 1])
    ensures forall i :: |RStrip(s)| <= i < |s| ==> IsSpace(s[i])
  {
    if s != [] && IsSpace(s[|s| - 1]) {
      var t := s[..|s| - 1];
      RStripShape(t);
      var k := |RStrip(t)|;
      assert RStrip(s) == RStrip(t) == t[..k] == s[..k];
      forall i | k <= i < |s| ensures IsSpace(s[i]) {
        if i < |s| - 1 { assert s[i] == t[i]; }
      }
    }
  }

  /** strip leaves a string that neither starts nor ends in whitespace, and leaves nothing exactly when
      the string is all whitespace. */
  lemma {:induction false} StripShape(s: string)
    ensures Strip(s) != [] ==> !IsSpace(Strip(s)[0]) && !IsSpace(Strip(s)[|Strip(s)| - 1])
    ensures Strip(s) == [] <==> forall i :: 0 <= i < |s| ==> IsSpace(s[i])
  {
    LStripShape(s);
    var l := LStrip(s);
    RStripShape(l);
    if Strip(s) != [] {
      assert Strip(s)[0] == l[0];
    }
  }

  /** rstrip(chars) leaves a prefix that does not end in one of chars. */
  lemma {:induction false} RStripAnyShape(s: string, chars: string)
    ensures |RStripAny(s, chars)| <= |s| && RStripAny(s, chars) == s[..|RStripAny(s, chars)|]
    ensures RStripAny(s, chars) != [] ==> RStripAny(s, chars)[|RStripAny(s, chars)| - 1] !in chars
  {
    if s != [] && s[|s| - 1] in chars {
      RStripAnyShape(s[..|s| - 1], chars);
    }
  }

  /** The first word of a string whose first character is not whitespace starts with that character. */
  lemma {:induction false} FirstWordStartsLikeString(s: string)
    requires s != [] && !IsSpace(s[0])
    ensures FirstWord(s) != [] && FirstWord(s)[0] == s[0]
  {
    assert LStrip(s) == s;
  }
}
