/**
 Output escaping. The code escapes by replacing one character after another; the
 meaning wanted is a one-pass translation that a one-pass decoder undoes.
 */
module Sanitize {
  import opened Text

  datatype Rule = Rule(raw: char, entity: string)

  type Table = seq<Rule>

  const MRKDWN: Table := [Rule('&', "&amp;"), Rule('<', "&lt;"), Rule('>', "&gt;")]

  /** The table of Python's `html.escape(quote=True)`. */
  const HTML: Table :=
    [Rule('&', "&amp;"), Rule('<', "&lt;"), Rule('>', "&gt;"), Rule('"', "&quot;"), Rule('\'', "&#x27;")]

  /** `text.replace(c, entity)` */
  function Replace(text: string, r: Rule): string {
    if text == "" then "" else (if text[0] == r.raw then r.entity else [text[0]]) + Replace(text[1..], r)
  }

  /** The chained replaces, in table order. */
  function Escape(text: string, t: Table): string
    decreases t
  {
    if t == [] then text else Escape(Replace(text, t[0]), t[1..])
  }

  function EscapeMrkdwn(text: string): string {
    Escape(text, MRKDWN)
  }

  function EscapeHtml(text: string): string {
    Escape(text, HTML)
  }

  // ----- one pass

  function Translate(c: char, t: Table): string {
    if t == [] then [c] else if c == t[0].raw then t[0].entity else Translate(c, t[1..])
  }

  function OnePass(text: string, t: Table): string {
    if text == "" then "" else Translate(text[0], t) + OnePass(text[1..], t)
  }

  /** The order of the chain is right: no entity written early holds a character that is
      replaced later. */
  predicate Ordered(t: Table) {
    forall i, j :: 0 <= i < j < |t| ==> t[j].raw !in t[i].entity
  }

  lemma {:induction false} OnePassConcat(a: string, b: string, t: Table)
    ensures OnePass(a + b, t) == OnePass(a, t) + OnePass(b, t)
  {
    if a == "" {
      assert a + b == b;
    } else {
      assert (a + b)[0] == a[0] && (a + b)[1..] == a[1..] + b;
      OnePassConcat(a[1..], b, t);
      var head := Translate(a[0], t);
      assert head + (OnePass(a[1..], t) + OnePass(b, t)) == (head + OnePass(a[1..], t)) + OnePass(b, t);
    }
  }

  lemma {:induction false} TranslateMissing(c: char, t: Table)
    requires forall i :: 0 <= i < |t| ==> t[i].raw != c
    ensures Translate(c, t) == [c]
  {
    if t != [] {
      TranslateMissing(c, t[1..]);
    }
  }

  lemma {:induction false} OnePassMissing(text: string, t: Table)
    requires forall i :: 0 <= i < |t| ==> t[i].raw !in text
    ensures OnePass(text, t) == text
  {
    if text != "" {
      TranslateMissing(text[0], t);
      OnePassMissing(text[1..], t);
    }
  }

  lemma {:induction false} ReplaceThenPass(text: string, t: Table)
    requires t != [] && Ordered(t)
    ensures OnePass(Replace(text, t[0]), t[1..]) == OnePass(text, t)
  {
    if text != "" {
      ReplaceThenPass(text[1..], t);
      OnePassConcat(if text[0] == t[0].raw then t[0].entity else [text[0]], Replace(text[1..], t[0]), t[1..]);
      if text[0] == t[0].raw {
        OnePassMissing(t[0].entity, t[1..]);
      } else {
        assert [text[0]][1..] == "";
        assert OnePass([text[0]], t[1..]) == Translate(text[0], t[1..]);
      }
    }
  }

  lemma {:induction false} PassNothing(text: string)
    ensures OnePass(text, []) == text
  {
    if text != "" {
      PassNothing(text[1..]);
    }
  }

  /** The chain of replaces is the one-pass escape. */
  lemma {:induction false} ChainIsOnePass(text: string, t: Table)
    requires Ordered(t)
    ensures Escape(text, t) == OnePass(text, t)
    decreases t
  {
    if t == [] {
      PassNothing(text);
    } else {
      ChainIsOnePass(Replace(text, t[0]), t[1..]);
      ReplaceThenPass(text, t);
    }
  }

  // ----- decoding

  function Match(text: string, t: Table): (m: seq<Rule>)
    ensures |m| <= 1 && (m != [] ==> m[0] in t && StartsWith(text, m[0].entity))
  {
    if t == [] then [] else if StartsWith(text, t[0].entity) then [t[0]] else Match(text, t[1..])
  }

  function Decode(text: string, t: Table): string
    requires forall r :: r in t ==> r.entity != ""
  {
    if text == "" then ""
    else
      var m := Match(text, t);
      if m != [] then [m[0].raw] + Decode(text[|m[0].entity|..], t) else [text[0]] + Decode(text[1..], t)
  }

  /** Entities begin with '&', which is itself escaped, and none is a prefix of another. */
  ghost predicate Decodable(t: Table) {
    && (forall r :: r in t ==> r.entity != "" && r.entity[0] == '&')
    && (exists r :: r in t && r.raw == '&')
    && (forall r, s :: r in t && s in t && r != s ==> !StartsWith(r.entity, s.entity) && r.raw != s.raw)
  }

  lemma {:induction false} MatchFinds(text: string, t: Table, r: Rule)
    requires r in t && StartsWith(text, r.entity)
    requires forall s :: s in t && s != r ==> !StartsWith(text, s.entity)
    ensures Match(text, t) == [r]
  {
    if t[0] != r {
      MatchFinds(text, t[1..], r);
    }
  }

  lemma {:induction false} TranslateFinds(c: char, t: Table, r: Rule)
    requires r in t && r.raw == c && forall s :: s in t && s != r ==> s.raw != c
    ensures Translate(c, t) == r.entity
  {
    if t[0] != r {
      TranslateFinds(c, t[1..], r);
    }
  }

  lemma DecodeEntity(r: Rule, rest: string, t: Table)
    requires Decodable(t) && r in t
    ensures Decode(r.entity + rest, t) == [r.raw] + Decode(rest, t)
  {
    var text := r.entity + rest;
    assert text[..|r.entity|] == r.entity && text[|r.entity|..] == rest;
    forall s | s in t && s != r ensures !StartsWith(text, s.entity) {
      if StartsWith(text, s.entity) {
        if |s.entity| <= |r.entity| {
          assert r.entity[..|s.entity|] == text[..|s.entity|];
          assert StartsWith(r.entity, s.entity);
        } else {
          assert s.entity[..|r.entity|] == text[..|r.entity|];
          assert StartsWith(s.entity, r.entity);
        }
      }
    }
    MatchFinds(text, t, r);
  }

  lemma DecodePlain(c: char, rest: string, t: Table)
    requires Decodable(t) && forall r :: r in t ==> r.raw != c
    ensures Decode([c] + rest, t) == [c] + Decode(rest, t)
  {
    var text := [c] + rest;
    var amp :| amp in t && amp.raw == '&';
    assert c != '&' && text[0] == c;
    assert text[1..] == rest;
  }

  /** Decoding undoes escaping on every text. */
  lemma {:induction false} DecodeUndoesPass(text: string, t: Table)
    requires Decodable(t)
    ensures Decode(OnePass(text, t), t) == text
  {
    if text != "" {
      var c, rest := text[0], OnePass(text[1..], t);
      DecodeUndoesPass(text[1..], t);
      if r :| r in t && r.raw == c {
        TranslateFinds(c, t, r);
        DecodeEntity(r, rest, t);
      } else {
        TranslateMissing(c, t);
        DecodePlain(c, rest, t);
      }
    }
  }

  lemma {:induction false} PassLeavesNoRaw(text: string, t: Table, c: char)
    requires (exists r :: r in t && r.raw == c) && forall r :: r in t ==> c !in r.entity
    requires forall r, s :: r in t && s in t && r.raw == s.raw ==> r == s
    ensures c !in OnePass(text, t)
  {
    if text != "" {
      PassLeavesNoRaw(text[1..], t, c);
      if r :| r in t && r.raw == text[0] {
        TranslateFinds(text[0], t, r);
      } else {
        TranslateMissing(text[0], t);
      }
    }
  }

  /** Entities that differ in their second character are told apart by it. */
  lemma SecondCharacterDecides(t: Table)
    requires t != [] && t[0].raw == '&'
    requires forall i :: 0 <= i < |t| ==> |t[i].entity| >= 2 && t[i].entity[0] == '&'
    requires forall i, j :: 0 <= i < j < |t| ==> t[i].entity[1] != t[j].entity[1] && t[i].raw != t[j].raw
    ensures Decodable(t)
  {
    assert t[0] in t;
    forall r, s | r in t && s in t && r != s ensures !StartsWith(r.entity, s.entity) && r.raw != s.raw {
      var i :| 0 <= i < |t| && t[i] == r;
      var j :| 0 <= j < |t| && t[j] == s;
      assert i < j || j < i;
      assert r.entity[1] != s.entity[1];
    }
  }

  lemma MrkdwnTable()
    ensures Ordered(MRKDWN) && Decodable(MRKDWN)
  {
    hide Decodable;
    SecondCharacterDecides(MRKDWN);
  }

  /** No entity holds a quote or an angle bracket. */
  lemma HtmlEntitiesHarmless()
    ensures forall i, j :: 0 <= i < |HTML| && 1 <= j < |HTML| ==> HTML[j].raw !in HTML[i].entity
  {
    forall i, j | 0 <= i < |HTML| && 1 <= j < |HTML| ensures HTML[j].raw !in HTML[i].entity {
      assert HTML[j].raw in ['<', '>', '"', '\''];
      assert forall k :: 0 <= k < |HTML[i].entity| ==> HTML[i].entity[k] !in ['<', '>', '"', '\''];
    }
  }

  lemma HtmlTable()
    ensures Ordered(HTML) && Decodable(HTML)
  {
    HtmlEntitiesHarmless();
    SecondCharacterDecides(HTML);
  }

  lemma RawGone(text: string, t: Table, i: nat)
    requires Decodable(t) && i < |t| && forall j :: 0 <= j < |t| ==> t[i].raw !in t[j].entity
    ensures t[i].raw !in OnePass(text, t)
  {
    assert t[i] in t;
    PassLeavesNoRaw(text, t, t[i].raw);
  }

  /** Slack escaping: one pass, compatible with concatenation, without raw angle brackets,
      and lossless on every text. */
  lemma MrkdwnEscapes(a: string, b: string)
    ensures EscapeMrkdwn(a) == OnePass(a, MRKDWN)
    ensures EscapeMrkdwn(a + b) == EscapeMrkdwn(a) + EscapeMrkdwn(b)
    ensures '<' !in EscapeMrkdwn(a) && '>' !in EscapeMrkdwn(a)
    ensures forall r :: r in MRKDWN ==> r.entity != ""
    ensures Decode(EscapeMrkdwn(a), MRKDWN) == a
    ensures EscapeMrkdwn(a) == EscapeMrkdwn(b) ==> a == b
  {
    hide OnePass, Escape, Decode, Ordered;
    MrkdwnTable();
    ChainIsOnePass(a, MRKDWN);
    ChainIsOnePass(b, MRKDWN);
    ChainIsOnePass(a + b, MRKDWN);
    OnePassConcat(a, b, MRKDWN);
    assert MRKDWN[1] in MRKDWN && MRKDWN[2] in MRKDWN;
    PassLeavesNoRaw(a, MRKDWN, '<');
    PassLeavesNoRaw(a, MRKDWN, '>');
    DecodeUndoesPass(a, MRKDWN);
    DecodeUndoesPass(b, MRKDWN);
  }

  /** The same for the five-entity HTML form, which leaves no raw quote either. */
  lemma HtmlEscapes(a: string, b: string)
    ensures EscapeHtml(a) == OnePass(a, HTML)
    ensures EscapeHtml(a + b) == EscapeHtml(a) + EscapeHtml(b)
    ensures '<' !in EscapeHtml(a) && '>' !in EscapeHtml(a) && '"' !in EscapeHtml(a) && '\'' !in EscapeHtml(a)
    ensures forall r :: r in HTML ==> r.entity != ""
    ensures Decode(EscapeHtml(a), HTML) == a
    ensures EscapeHtml(a) == EscapeHtml(b) ==> a == b
  {
    hide OnePass, Escape, Decode, Ordered, Decodable;
    HtmlTable();
    ChainIsOnePass(a, HTML);
    ChainIsOnePass(b, HTML);
    ChainIsOnePass(a + b, HTML);
    OnePassConcat(a, b, HTML);
    HtmlEntitiesHarmless();
    RawGone(a, HTML, 1);
    RawGone(a, HTML, 2);
    RawGone(a, HTML, 3);
    RawGone(a, HTML, 4);
    DecodeUndoesPass(a, HTML);
    DecodeUndoesPass(b, HTML);
  }

  /** The entities themselves, which Slack and HTML define. With the concatenation law this
      is the whole escape. */
  lemma MrkdwnOneCharacter(c: char)
    ensures EscapeMrkdwn("") == ""
    ensures EscapeMrkdwn([c]) ==
            if c == '&' then "&amp;" else if c == '<' then "&lt;" else if c == '>' then "&gt;" else [c]
  {
    MrkdwnTable();
    ChainIsOnePass([c], MRKDWN);
    ChainIsOnePass("", MRKDWN);
    OneCharacter(c, MRKDWN);
    assert MRKDWN[1..][1..][1..] == [];
  }

  lemma HtmlOneCharacter(c: char)
    ensures EscapeHtml("") == ""
    ensures EscapeHtml([c]) ==
            if c == '&' then "&amp;" else if c == '<' then "&lt;" else if c == '>' then "&gt;"
            else if c == '"' then "&quot;" else if c == '\'' then "&#x27;" else [c]
  {
    HtmlTable();
    ChainIsOnePass([c], HTML);
    ChainIsOnePass("", HTML);
    OneCharacter(c, HTML);
    assert HTML[1..][1..][1..][1..][1..] == [];
  }

  lemma OneCharacter(c: char, t: Table)
    ensures OnePass([c], t) == Translate(c, t) && OnePass("", t) == ""
  {
    assert [c][1..] == "";
  }
}
