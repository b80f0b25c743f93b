/** The text encodings of the web page's query string: a mechanism's joint table as the `mech`
    argument, and a target shape as the `ts` argument. The text the joint table serialises to
    and the placeholder text of the target-shape box are inputs. */
module UrlArgumentHandling {
  import opened Results

  // ---------------------------------------------------------------------------------------
  // String.Replace

  /** `String.Replace(char, char)`: every occurrence of `from` becomes `to`. */
  function ReplaceChar(s: string, from: char, to: char): (r: string)
    ensures |r| == |s|
    ensures forall i :: 0 <= i < |s| ==> r[i] == (if s[i] == from then to else s[i])
  {
    if s == [] then []
    else [if s[0] == from then to else s[0]] + ReplaceChar(s[1..], from, to)
  }

  /** Replacing `from` by `to` and then `to` by `from` gives the text back when `to` did not
      occur in it. */
  lemma ReplaceCharRoundTrip(s: string, from: char, to: char)
    requires to !in s
    ensures ReplaceChar(ReplaceChar(s, from, to), to, from) == s
  {
    var back := ReplaceChar(ReplaceChar(s, from, to), to, from);
    assert forall i :: 0 <= i < |s| ==> back[i] == s[i];
  }

  /** After the replacement `from` no longer occurs, unless it is `to` itself. */
  lemma ReplaceCharRemoves(s: string, from: char, to: char)
    requires from != to
    ensures from !in ReplaceChar(s, from, to)
  {
    var r := ReplaceChar(s, from, to);
    assert forall i :: 0 <= i < |r| ==> r[i] != from;
  }

  /** A character other than `from` and `to` occurs after the replacement exactly where it
      occurred before. */
  lemma ReplaceCharKeeps(s: string, from: char, to: char, c: char)
    requires c != from && c != to
    ensures c in ReplaceChar(s, from, to) <==> c in s
  {
    var r := ReplaceChar(s, from, to);
    if c in s {
      var i :| 0 <= i < |s| && s[i] == c;
      assert r[i] == c;
    }
    if c in r {
      var i :| 0 <= i < |r| && r[i] == c;
      assert s[i] == c;
    }
  }

  /** Replacing a character that does not occur changes nothing. */
  lemma ReplaceCharAbsent(s: string, from: char, to: char)
    requires from !in s
    ensures ReplaceChar(s, from, to) == s
  {
    var r := ReplaceChar(s, from, to);
    assert forall i :: 0 <= i < |s| ==> r[i] == s[i];
  }

  /** Two spaces side by side somewhere in the text. */
  predicate HasDoubleSpace(s: string)
  {
    exists i :: 0 <= i < |s| - 1 && s[i] == ' ' && s[i + 1] == ' '
  }

  /** `String.Replace("  ", " ")`: a left-to-right scan that replaces each non-overlapping pair
      of spaces by one space. */
  function ReplaceDoubleSpaces(s: string): (r: string)
    ensures |r| <= |s|
    ensures |s| > 0 ==> |r| > 0 && r[0] == s[0]
    decreases |s|
  {
    if |s| < 2 then s
    else if s[0] == ' ' && s[1] == ' ' then " " + ReplaceDoubleSpaces(s[2..])
    else [s[0]] + ReplaceDoubleSpaces(s[1..])
  }

  /** The pass only drops spaces: a character the text does not hold, the result does not hold
      either. */
  lemma {:induction false} ReplaceDoubleSpacesKeepsOut(s: string, c: char)
    requires c !in s
    ensures c !in ReplaceDoubleSpaces(s)
    decreases |s|
  {
    if |s| >= 2 {
      if s[0] == ' ' && s[1] == ' ' {
        assert c !in s[2..];
        ReplaceDoubleSpacesKeepsOut(s[2..], c);
      } else {
        assert c !in s[1..];
        ReplaceDoubleSpacesKeepsOut(s[1..], c);
      }
    }
  }

  /** A text without a double space is left as it is. */
  lemma {:induction false} ReplaceDoubleSpacesNone(s: string)
    requires !HasDoubleSpace(s)
    ensures ReplaceDoubleSpaces(s) == s
    decreases |s|
  {
    if |s| >= 2 {
      assert !(s[0] == ' ' && s[1] == ' ');
      forall i | 0 <= i < |s[1..]| - 1
        ensures !(s[1..][i] == ' ' && s[1..][i + 1] == ' ')
      {
        assert s[1..][i] == s[i + 1] && s[1..][i + 1] == s[i + 2];
      }
      ReplaceDoubleSpacesNone(s[1..]);
      assert s == [s[0]] + s[1..];
    }
  }

  /** `k` spaces. */
  function Spaces(k: nat): (r: string)
    ensures |r| == k
  {
    if k == 0 then "" else " " + Spaces(k - 1)
  }

  /** One pass turns a run of k spaces at the start of the text into a run of k / 2 spaces,
      rounded up; the text after the run is scanned on its own. */
  lemma {:induction false} LeadingRun(k: nat, t: string)
    requires t == [] || t[0] != ' '
    ensures ReplaceDoubleSpaces(Spaces(k) + t) == Spaces((k + 1) / 2) + ReplaceDoubleSpaces(t)
    decreases k
  {
    if k == 0 {
      assert Spaces(k) + t == t;
    } else if k == 1 {
      SingleSpaceThen(t);
    } else {
      LeadingRun(k - 2, t);
      RunStep(k, t);
    }
  }

  /** The step of LeadingRun: the first two spaces of the run become one. */
  lemma RunStep(k: nat, t: string)
    requires k >= 2
    requires ReplaceDoubleSpaces(Spaces(k - 2) + t) == Spaces((k - 1) / 2) + ReplaceDoubleSpaces(t)
    ensures ReplaceDoubleSpaces(Spaces(k) + t) == Spaces((k + 1) / 2) + ReplaceDoubleSpaces(t)
  {
    var rest := Spaces(k - 2) + t;
    var h := (k - 1) / 2;
    calc {
      ReplaceDoubleSpaces(Spaces(k) + t);
      { TwoSpacesThen(k, t); }
      ReplaceDoubleSpaces("  " + rest);
      { DoubleSpaceThen(rest); }
      " " + ReplaceDoubleSpaces(rest);
      " " + (Spaces(h) + ReplaceDoubleSpaces(t));
      { assert " " + (Spaces(h) + ReplaceDoubleSpaces(t)) == (" " + Spaces(h)) + ReplaceDoubleSpaces(t); }
      (" " + Spaces(h)) + ReplaceDoubleSpaces(t);
      { HalfRoundedUpStep(k); }
      Spaces((k + 1) / 2) + ReplaceDoubleSpaces(t);
    }
  }

  lemma TwoSpacesThen(k: nat, t: string)
    requires k >= 2
    ensures Spaces(k) + t == "  " + (Spaces(k - 2) + t)
  {
    assert Spaces(k) == "  " + Spaces(k - 2);
  }

  /** A leading double space becomes one space and the scan goes on after it. */
  lemma DoubleSpaceThen(rest: string)
    ensures ReplaceDoubleSpaces("  " + rest) == " " + ReplaceDoubleSpaces(rest)
  {
    assert ("  " + rest)[2..] == rest;
  }

  lemma HalfRoundedUpStep(k: nat)
    requires k >= 2
    ensures (k + 1) / 2 == (k - 1) / 2 + 1
  {
  }

  lemma HalfOfHalfRoundedUp(k: nat)
    ensures ((k + 1) / 2 + 1) / 2 == (k + 3) / 4
  {
  }

  /** A single space before a text that does not start with one is kept as it is. */
  lemma SingleSpaceThen(t: string)
    requires t == [] || t[0] != ' '
    ensures ReplaceDoubleSpaces(" " + t) == " " + ReplaceDoubleSpaces(t)
  {
    if t != [] {
      assert (" " + t)[1..] == t;
    }
  }

  /** Two passes turn a run of k spaces at the start of the text into a run of k / 4 spaces,
      rounded up. */
  lemma LeadingRunTwice(k: nat, t: string)
    requires t == [] || t[0] != ' '
    ensures ReplaceDoubleSpaces(ReplaceDoubleSpaces(Spaces(k) + t)) ==
      Spaces((k + 3) / 4) + ReplaceDoubleSpaces(ReplaceDoubleSpaces(t))
  {
    var m := (k + 1) / 2;
    var t' := ReplaceDoubleSpaces(t);
    calc {
      ReplaceDoubleSpaces(ReplaceDoubleSpaces(Spaces(k) + t));
      { LeadingRun(k, t); }
      ReplaceDoubleSpaces(Spaces(m) + t');
      { NoLeadingSpaceKept(t); LeadingRun(m, t'); }
      Spaces((m + 1) / 2) + ReplaceDoubleSpaces(t');
      { HalfOfHalfRoundedUp(k); }
      Spaces((k + 3) / 4) + ReplaceDoubleSpaces(t');
    }
  }

  /** A text that does not start with a space still does not after the pass. */
  lemma NoLeadingSpaceKept(t: string)
    requires t == [] || t[0] != ' '
    ensures ReplaceDoubleSpaces(t) == [] || ReplaceDoubleSpaces(t)[0] != ' '
  {
  }

  /** The scan never carries over a text that does not end in a space: a pass over `p + q` is a
      pass over p followed by a pass over q. */
  lemma {:induction false} ReplaceDoubleSpacesConcat(p: string, q: string)
    requires p == [] || p[|p| - 1] != ' '
    ensures ReplaceDoubleSpaces(p + q) == ReplaceDoubleSpaces(p) + ReplaceDoubleSpaces(q)
    decreases |p|
  {
    if p == [] {
      assert p + q == q;
    } else if |p| == 1 {
      if q != [] {
        assert (p + q)[1..] == q;
      }
    } else if p[0] == ' ' && p[1] == ' ' {
      assert (p + q)[2..] == p[2..] + q;
      ReplaceDoubleSpacesConcat(p[2..], q);
    } else {
      assert (p + q)[1..] == p[1..] + q;
      ReplaceDoubleSpacesConcat(p[1..], q);
    }
  }

  /** A text that ends in a character other than a space still ends in it after the pass. */
  lemma {:induction false} NoTrailingSpaceKept(p: string)
    requires p != [] && p[|p| - 1] != ' '
    ensures ReplaceDoubleSpaces(p) != [] && ReplaceDoubleSpaces(p)[|ReplaceDoubleSpaces(p)| - 1] == p[|p| - 1]
    decreases |p|
  {
    if |p| >= 2 {
      if p[0] == ' ' && p[1] == ' ' {
        NoTrailingSpaceKept(p[2..]);
      } else {
        NoTrailingSpaceKept(p[1..]);
      }
    }
  }

  /** One pass turns a maximal run of k spaces, wherever it stands, into a run of k / 2 spaces,
      rounded up; the text before and the text after the run are scanned on their own. */
  lemma ReplaceDoubleSpacesRun(p: string, k: nat, t: string)
    requires p == [] || p[|p| - 1] != ' '
    requires t == [] || t[0] != ' '
    ensures ReplaceDoubleSpaces(p + Spaces(k) + t) ==
      ReplaceDoubleSpaces(p) + Spaces((k + 1) / 2) + ReplaceDoubleSpaces(t)
  {
    calc {
      ReplaceDoubleSpaces(p + Spaces(k) + t);
      { assert p + Spaces(k) + t == p + (Spaces(k) + t); }
      ReplaceDoubleSpaces(p + (Spaces(k) + t));
      { ReplaceDoubleSpacesConcat(p, Spaces(k) + t); }
      ReplaceDoubleSpaces(p) + ReplaceDoubleSpaces(Spaces(k) + t);
      { LeadingRun(k, t); }
      ReplaceDoubleSpaces(p) + (Spaces((k + 1) / 2) + ReplaceDoubleSpaces(t));
      { assert ReplaceDoubleSpaces(p) + (Spaces((k + 1) / 2) + ReplaceDoubleSpaces(t)) ==
          ReplaceDoubleSpaces(p) + Spaces((k + 1) / 2) + ReplaceDoubleSpaces(t); }
      ReplaceDoubleSpaces(p) + Spaces((k + 1) / 2) + ReplaceDoubleSpaces(t);
    }
  }

  /** Two passes turn a maximal run of k spaces, wherever it stands, into a run of k / 4 spaces,
      rounded up. */
  lemma ReplaceDoubleSpacesTwiceRun(p: string, k: nat, t: string)
    requires p == [] || p[|p| - 1] != ' '
    requires t == [] || t[0] != ' '
    ensures ReplaceDoubleSpaces(ReplaceDoubleSpaces(p + Spaces(k) + t)) ==
      ReplaceDoubleSpaces(ReplaceDoubleSpaces(p)) + Spaces((k + 3) / 4) + ReplaceDoubleSpaces(ReplaceDoubleSpaces(t))
  {
    var p' := ReplaceDoubleSpaces(p);
    var t' := ReplaceDoubleSpaces(t);
    calc {
      ReplaceDoubleSpaces(ReplaceDoubleSpaces(p + Spaces(k) + t));
      { ReplaceDoubleSpacesRun(p, k, t); }
      ReplaceDoubleSpaces(p' + Spaces((k + 1) / 2) + t');
      { if p != [] { NoTrailingSpaceKept(p); }
        NoLeadingSpaceKept(t);
        ReplaceDoubleSpacesRun(p', (k + 1) / 2, t'); }
      ReplaceDoubleSpaces(p') + Spaces(((k + 1) / 2 + 1) / 2) + ReplaceDoubleSpaces(t');
      { HalfOfHalfRoundedUp(k); }
      ReplaceDoubleSpaces(p') + Spaces((k + 3) / 4) + ReplaceDoubleSpaces(t');
    }
  }

  /** So a run of more than four spaces, wherever it stands, still holds a double space after
      the two passes. */
  lemma LongRunKeepsDoubleSpace(p: string, k: nat, t: string)
    requires k > 4
    requires p == [] || p[|p| - 1] != ' '
    requires t == [] || t[0] != ' '
    ensures HasDoubleSpace(ReplaceDoubleSpaces(ReplaceDoubleSpaces(p + Spaces(k) + t)))
  {
    ReplaceDoubleSpacesTwiceRun(p, k, t);
    DoubleSpaceInside(ReplaceDoubleSpaces(ReplaceDoubleSpaces(p)), (k + 3) / 4, ReplaceDoubleSpaces(ReplaceDoubleSpaces(t)));
  }

  /** A run of two or more spaces anywhere in a text is a double space. */
  lemma DoubleSpaceInside(a: string, q: nat, c: string)
    requires q >= 2
    ensures HasDoubleSpace(a + Spaces(q) + c)
  {
    var r := a + Spaces(q) + c;
    assert Spaces(q) == "  " + Spaces(q - 2);
    assert r[|a|] == ' ' && r[|a| + 1] == ' ';
  }

  /** A run of five spaces between two numbers keeps a double space. */
  lemma FiveSpacesBetweenNumbers()
    ensures HasDoubleSpace(ReplaceDoubleSpaces(ReplaceDoubleSpaces("1" + Spaces(5) + "2")))
  {
    LongRunKeepsDoubleSpace("1", 5, "2");
  }

  // ---------------------------------------------------------------------------------------
  // The mechanism argument

  /** The body of the `mech` argument: line breaks become `|`, commas become spaces, and two
      passes replace double spaces by single ones. */
  function EncodeMechanism(text: string): (body: string)
    ensures |body| <= |text|
    ensures '\n' !in body && ',' !in body
  {
    var noBreaks := ReplaceChar(text, '\n', '|');
    var noCommas := ReplaceChar(noBreaks, ',', ' ');
    ReplaceCharRemoves(text, '\n', '|');
    ReplaceCharKeeps(noBreaks, ',', ' ', '\n');
    ReplaceCharRemoves(noBreaks, ',', ' ');
    ReplaceDoubleSpacesKeepsOut(noCommas, '\n');
    ReplaceDoubleSpacesKeepsOut(noCommas, ',');
    ReplaceDoubleSpacesKeepsOut(ReplaceDoubleSpaces(noCommas), '\n');
    ReplaceDoubleSpacesKeepsOut(ReplaceDoubleSpaces(noCommas), ',');
    ReplaceDoubleSpaces(ReplaceDoubleSpaces(noCommas))
  }

  /** `MechanismToUrl`, given the text the joint table serialises to: `mech=` and the encoded
      body. */
  function MechanismToUrl(text: string): (r: string)
    ensures |r| >= 5 && r[..5] == "mech="
    ensures r[5..] == EncodeMechanism(text)
    ensures '\n' !in r[5..] && ',' !in r[5..]
  {
    "mech=" + EncodeMechanism(text)
  }

  /** The text `UrlToMechanism` hands to the joint-table parser: every `|` of the `mech` argument
      becomes a line break. */
  function UrlToMechanism(argument: string): (text: string)
    ensures |text| == |argument|
    ensures '|' !in text
  {
    ReplaceCharRemoves(argument, '|', '\n');
    ReplaceChar(argument, '|', '\n')
  }

  /** For text without `|`, the `|` to line-break step undoes the line-break to `|` step. */
  lemma LineBreaksRoundTrip(text: string)
    requires '|' !in text
    ensures UrlToMechanism(ReplaceChar(text, '\n', '|')) == text
  {
    ReplaceCharRoundTrip(text, '\n', '|');
  }

  /** Replacing line breaks by `|` creates no double space where there was none. */
  lemma ReplaceCharNoDoubleSpace(s: string, from: char, to: char)
    requires from != ' ' && to != ' ' && !HasDoubleSpace(s)
    ensures !HasDoubleSpace(ReplaceChar(s, from, to))
  {
    var r := ReplaceChar(s, from, to);
    forall i | 0 <= i < |r| - 1
      ensures !(r[i] == ' ' && r[i + 1] == ' ')
    {
      assert r[i] == ' ' ==> s[i] == ' ';
      assert r[i + 1] == ' ' ==> s[i + 1] == ' ';
    }
  }

  /** A text without `|`, commas or double spaces makes the whole round trip through the URL. */
  lemma MechanismRoundTrip(text: string)
    requires '|' !in text && ',' !in text && !HasDoubleSpace(text)
    ensures UrlToMechanism(MechanismToUrl(text)[5..]) == text
  {
    var noBreaks := ReplaceChar(text, '\n', '|');
    ReplaceCharKeeps(text, '\n', '|', ',');
    ReplaceCharAbsent(noBreaks, ',', ' ');
    ReplaceCharNoDoubleSpace(text, '\n', '|');
    ReplaceDoubleSpacesNone(noBreaks);
    LineBreaksRoundTrip(text);
  }

  /** A comma does not survive the trip: it comes back as a space. */
  lemma CommaBecomesSpace()
    ensures MechanismToUrl("1,2") == "mech=1 2"
    ensures UrlToMechanism(MechanismToUrl("1,2")[5..]) == "1 2"
  {
    assert ReplaceChar("1,2", '\n', '|') == "1,2";
    assert ReplaceChar("1,2", ',', ' ') == "1 2";
    assert ReplaceDoubleSpaces("1 2") == "1 2";
    assert ReplaceChar("1 2", '|', '\n') == "1 2";
  }

  // ---------------------------------------------------------------------------------------
  // The target-shape argument

  /** `char.IsWhiteSpace` of the .NET 4 runtime, which follows Unicode 5: the space, line and
      paragraph separators (U+180E among the spaces) and the control characters U+0009 to
      U+000D and U+0085. */
  predicate IsWhiteSpace(c: char)
  {
    var n := c as int;
    (9 <= n <= 13) || n == 0x20 || n == 0x85 || n == 0xA0 || n == 0x1680 || n == 0x180E ||
    (0x2000 <= n <= 0x200A) || n == 0x2028 || n == 0x2029 || n == 0x202F || n == 0x205F || n == 0x3000
  }

  /** Tabs, line breaks, the space, the no-break space and the Mongolian vowel separator are white
      space; the characters the `mech` and `ts` arguments use as separators are not. */
  lemma WhiteSpaceCharacters()
    ensures IsWhiteSpace(' ') && IsWhiteSpace('\t') && IsWhiteSpace('\n') && IsWhiteSpace('\r')
    ensures IsWhiteSpace('\U{00A0}') && IsWhiteSpace('\U{180E}') && IsWhiteSpace('\U{3000}')
    ensures !IsWhiteSpace(',') && !IsWhiteSpace('|') && !IsWhiteSpace('&') && !IsWhiteSpace('=')
    ensures !IsWhiteSpace('\U{200B}') && !IsWhiteSpace('\U{FEFF}')
  {
  }

  predicate AllWhiteSpace(s: string)
  {
    forall i :: 0 <= i < |s| ==> IsWhiteSpace(s[i])
  }

  /** `string.IsNullOrWhiteSpace`: a null text, or one that trims to nothing. */
  predicate IsNullOrWhiteSpace(s: Option<string>): (r: bool)
    ensures r <==> s.None? || Trim(s.value) == []
  {
    if s.None? then true
    else
      TrimEmptyIffWhiteSpace(s.value);
      AllWhiteSpace(s.value)
  }

  /** `TrimStart()`: the text without its leading white space. */
  function TrimStart(s: string): (r: string)
    ensures |r| <= |s| && r == s[|s| - |r|..]
    ensures r == [] || !IsWhiteSpace(r[0])
    ensures AllWhiteSpace(s[..|s| - |r|])
  {
    if s != [] && IsWhiteSpace(s[0]) then
      var r := TrimStart(s[1..]);
      assert s[..|s| - |r|] == [s[0]] + s[1..][..|s[1..]| - |r|];
      r
    else s
  }

  /** `TrimEnd()`: the text without its trailing white space. */
  function TrimEnd(s: string): (r: string)
    ensures |r| <= |s| && r == s[..|r|]
    ensures r == [] || !IsWhiteSpace(r[|r| - 1])
    ensures AllWhiteSpace(s[|r|..])
  {
    if s != [] && IsWhiteSpace(s[|s| - 1]) then
      var r := TrimEnd(s[..|s| - 1]);
      assert s[|r|..] == s[..|s| - 1][|r|..] + [s[|s| - 1]];
      r
    else s
  }

  /** `Trim()`. */
  function Trim(s: string): (r: string)
    ensures r == [] || (!IsWhiteSpace(r[0]) && !IsWhiteSpace(r[|r| - 1]))
  {
    TrimEnd(TrimStart(s))
  }

  /** The trimmed text is empty exactly when the text is all white space. */
  lemma TrimEmptyIffWhiteSpace(s: string)
    ensures Trim(s) == [] <==> AllWhiteSpace(s)
  {
    var start := TrimStart(s);
    if Trim(s) == [] {
      assert AllWhiteSpace(start[0..]);
      assert start == [];
      assert s[..|s|] == s;
    }
  }

  /** `TargetShapeToUrl`, given the text of the target-shape box and the box's placeholder text:
      nothing for an empty, blank or placeholder text, else `ts=`, the text with commas as
      spaces, and `&`. */
  function TargetShapeToUrl(text: Option<string>, placeholder: string): (r: string)
    ensures r == "" <==> IsNullOrWhiteSpace(text) || Trim(text.value) == placeholder
    ensures r != "" ==> |r| == |text.value| + 4
    ensures r != "" ==> r[..3] == "ts=" && r[|r| - 1] == '&' && ',' !in r
    // the argument carries the text itself, with commas as spaces
    ensures r != "" ==> r[3..|r| - 1] == ReplaceChar(text.value, ',', ' ')
  {
    if IsNullOrWhiteSpace(text) || Trim(text.value) == placeholder then ""
    else TargetShapeArgument(text.value)
  }

  /** The `ts` argument for a text that is neither blank nor the placeholder. */
  function TargetShapeArgument(text: string): (r: string)
    ensures |r| == |text| + 4
    ensures r[..3] == "ts=" && r[|r| - 1] == '&' && ',' !in r
    ensures r[3..|r| - 1] == ReplaceChar(text, ',', ' ')
  {
    var body := ReplaceChar(text, ',', ' ');
    ReplaceCharRemoves(text, ',', ' ');
    var r := "ts=" + body + "&";
    assert r[3..|r| - 1] == body;
    r
  }

  /** A text holding only the Mongolian vowel separator is blank, so it yields no argument. */
  lemma VowelSeparatorYieldsNothing(placeholder: string)
    ensures TargetShapeToUrl(Some("\U{180E}"), placeholder) == ""
  {
    assert IsWhiteSpace("\U{180E}"[0]);
  }

  /** The placeholder itself, or the placeholder with white space around it, yields nothing. */
  lemma PlaceholderYieldsNothing(text: string, placeholder: string)
    requires Trim(text) == placeholder
    ensures TargetShapeToUrl(Some(text), placeholder) == ""
  {
  }
}
