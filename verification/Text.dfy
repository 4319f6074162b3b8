/** The string operations of the checked scripts. */
module Text {

  predicate TextAt(text: string, part: string, i: int) {
    0 <= i <= |text| - |part| && text[i..i + |part|] == part
  }

  /** Python's `part in text`. */
  predicate HasText(text: string, part: string) {
    exists i :: 0 <= i <= |text| && TextAt(text, part, i)
  }

  lemma HasTextIff(text: string, part: string)
    ensures HasText(text, part) <==> exists a, b :: text == a + part + b
  {
    if i :| 0 <= i <= |text| && TextAt(text, part, i) {
      assert text == text[..i] + part + text[i + |part|..];
    }
    if a, b :| text == a + part + b {
      assert text[|a|..|a| + |part|] == part;
      assert TextAt(text, part, |a|);
    }
  }

  predicate StartsWith(text: string, part: string) {
    |part| <= |text| && text[..|part|] == part
  }

  /** `str.isspace`, which is also what `\s` matches. */
  predicate IsSpace(c: char) {
    || c == ' ' || '\t' <= c <= '\r' || '\U{1C}' <= c <= '\U{1F}' || c == '\U{85}' || c == '\U{A0}'
    || c == '\U{1680}' || '\U{2000}' <= c <= '\U{200A}' || c == '\U{2028}' || c == '\U{2029}'
    || c == '\U{202F}' || c == '\U{205F}' || c == '\U{3000}'
  }

  predicate Blank(text: string) {
    forall i :: 0 <= i < |text| ==> IsSpace(text[i])
  }

  function LStrip(text: string): string {
    if text != [] && IsSpace(text[0]) then LStrip(text[1..]) else text
  }

  function RStrip(text: string): string {
    if text != [] && IsSpace(text[|text| - 1]) then RStrip(text[..|text| - 1]) else text
  }

  function Strip(text: string): string {
    RStrip(LStrip(text))
  }

  function Spaces(n: nat): string {
    if n == 0 then "" else " " + Spaces(n - 1)
  }

  /** A text that stripping leaves alone. */
  predicate Trim(text: string) {
    text != [] ==> !IsSpace(text[0]) && !IsSpace(text[|text| - 1])
  }

  lemma {:induction false} SpacesLength(n: nat)
    ensures |Spaces(n)| == n && Blank(Spaces(n))
  {
    if n > 0 {
      SpacesLength(n - 1);
    }
  }

  lemma {:induction false} LStripSpaces(n: nat, text: string)
    requires text != [] ==> !IsSpace(text[0])
    ensures LStrip(Spaces(n) + text) == text
  {
    if n == 0 {
      assert Spaces(0) + text == text;
    } else {
      assert (Spaces(n) + text)[1..] == Spaces(n - 1) + text;
      LStripSpaces(n - 1, text);
    }
  }

  lemma StripIndented(n: nat, text: string)
    requires Trim(text)
    ensures Strip(Spaces(n) + text) == text && LStrip(Spaces(n) + text) == text
  {
    LStripSpaces(n, text);
  }

  lemma {:induction false} LStripBlank(text: string)
    ensures LStrip(text) == "" <==> Blank(text)
    ensures |LStrip(text)| <= |text| && (LStrip(text) != "" ==> !IsSpace(LStrip(text)[0]))
  {
    if text != [] && IsSpace(text[0]) {
      LStripBlank(text[1..]);
      assert forall i :: 0 < i < |text| ==> text[1..][i - 1] == text[i];
    }
  }

  lemma {:induction false} RStripBlank(text: string)
    ensures RStrip(text) == "" <==> Blank(text)
  {
    if text != [] && IsSpace(text[|text| - 1]) {
      RStripBlank(text[..|text| - 1]);
    }
  }

  lemma StripBlank(text: string)
    ensures Strip(text) == "" <==> Blank(text)
  {
    LStripBlank(text);
    RStripBlank(LStrip(text));
  }

  /** What `lstrip` and `strip` do to any text: white space goes from the ends, and only that. */
  lemma {:induction false} LStripIs(text: string)
    ensures var n := |text| - |LStrip(text)|;
            && 0 <= n <= |text| && text[n..] == LStrip(text) && Blank(text[..n])
            && (n < |text| ==> !IsSpace(text[n]))
  {
    hide IsSpace;
    if text != [] && IsSpace(text[0]) {
      LStripIs(text[1..]);
      var n := |text| - |LStrip(text)|;
      assert text[n..] == text[1..][n - 1..];
      forall i | 0 <= i < n ensures IsSpace(text[..n][i]) {
        assert i > 0 ==> text[i] == text[1..][..n - 1][i - 1];
      }
    }
  }

  lemma {:induction false} RStripIs(text: string)
    ensures var n := |RStrip(text)|;
            && n <= |text| && text[..n] == RStrip(text) && Blank(text[n..])
            && (n > 0 ==> !IsSpace(text[n - 1]))
  {
    if text != [] && IsSpace(text[|text| - 1]) {
      var m := |text| - 1;
      RStripIs(text[..m]);
      var n := |RStrip(text)|;
      forall i | 0 <= i < |text[n..]| ensures IsSpace(text[n..][i]) {
        assert i < m - n ==> text[n..][i] == text[..m][n..][i];
      }
    }
  }

  lemma StripIs(text: string)
    ensures exists a, b :: Blank(a) && Blank(b) && text == a + Strip(text) + b
    ensures Trim(Strip(text))
  {
    hide LStrip, RStrip, Blank, IsSpace;
    var inner := LStrip(text);
    LStripIs(text);
    RStripIs(inner);
    TrimmedInside(inner);
    var n := |text| - |inner|;
    assert text == text[..n] + Strip(text) + inner[|Strip(text)|..];
  }

  lemma TrimmedInside(inner: string)
    requires inner != "" ==> !IsSpace(inner[0])
    ensures Trim(RStrip(inner))
  {
    hide RStrip;
    RStripIs(inner);
    var n := |RStrip(inner)|;
    assert n > 0 ==> inner[..n][0] == inner[0] && inner[..n][n - 1] == inner[n - 1];
  }
}
