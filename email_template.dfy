/**
 * The placeholder substitution of src/helper/email_template/loader.js. The template
 * file's text is an input. For each variable in turn, every `{{ key }}` (any run of
 * whitespace allowed inside the braces) is replaced by the value, the way a global
 * regular-expression replace does it: scanning left to right and resuming after
 * each replaced placeholder.
 */
module EmailTemplate {
  import opened Wrappers

  /** The characters JavaScript's `\s` matches. */
  predicate IsJsSpace(c: char) {
    c in {' ', '\t', '\n', '\U{B}', '\U{C}', '\r', '\U{A0}', '\U{1680}', '\U{2028}', '\U{2029}',
          '\U{202F}', '\U{205F}', '\U{3000}', '\U{FEFF}'}
    || '\U{2000}' <= c <= '\U{200A}'
  }

  predicate IsKeyChar(c: char) {
    'a' <= c <= 'z' || 'A' <= c <= 'Z' || '0' <= c <= '9' || c == '_'
  }

  /** Keys of identifier characters only, so that the key stands for itself in the pattern. */
  predicate ValidKey(k: string) {
    forall i :: 0 <= i < |k| ==> IsKeyChar(k[i])
  }

  predicate AllSpace(s: string) {
    forall i :: 0 <= i < |s| ==> IsJsSpace(s[i])
  }

  /** The length of the whitespace run `\s*` that starts `t`. */
  function SpaceRun(t: string): (n: nat)
    ensures n <= |t| && AllSpace(t[..n])
    ensures n < |t| ==> !IsJsSpace(t[n])
  {
    if t != [] && IsJsSpace(t[0]) then
      var n := 1 + SpaceRun(t[1..]);
      assert t[..n] == [t[0]] + t[1..][..n - 1];
      n
    else 0
  }

  /** `t` with its leading whitespace run removed. */
  function AfterSpace(t: string): (u: string)
    ensures |u| <= |t| && (u != [] ==> !IsJsSpace(u[0]))
  {
    t[SpaceRun(t)..]
  }

  predicate OpensWith(t: string, c: char) {
    |t| >= 2 && t[0] == c && t[1] == c
  }

  /** The text after the placeholder for `key` that starts `t`, if one is there. */
  function AfterPlaceholder(t: string, key: string): (m: Option<string>)
    ensures m.Some? ==> |m.value| <= |t| - 4
  {
    if OpensWith(t, '{') then
      var u := AfterSpace(t[2..]);
      if key <= u then
        var w := AfterSpace(u[|key|..]);
        if OpensWith(w, '}') then Some(w[2..]) else None
      else None
    else None
  }

  /** `t.replace(/{{\s*key\s*}}/g, value)`. */
  function ReplaceAll(t: string, key: string, value: string): string
    decreases |t|
  {
    if t == [] then []
    else match AfterPlaceholder(t, key)
      case Some(rest) => value + ReplaceAll(rest, key, value)
      case None => [t[0]] + ReplaceAll(t[1..], key, value)
  }

  lemma ReplaceAllCopies(t: string, key: string, value: string)
    requires t != [] && AfterPlaceholder(t, key).None?
    ensures ReplaceAll(t, key, value) == [t[0]] + ReplaceAll(t[1..], key, value)
  {
  }

  lemma ReplaceAllSubstitutes(t: string, key: string, value: string, rest: string)
    requires AfterPlaceholder(t, key) == Some(rest)
    ensures ReplaceAll(t, key, value) == value + ReplaceAll(rest, key, value)
  {
  }

  /** The variables applied one after the other, in iteration order. */
  function ApplyAll(t: string, variables: seq<(string, string)>): string
    decreases |variables|
  {
    if variables == [] then t
    else ApplyAll(ReplaceAll(t, variables[0].0, variables[0].1), variables[1..])
  }

  /**
   * `append` after the file is read: `variables` lists the object's keys in `for...in`
   * order with their values.
   */
  method Append(template: string, variables: seq<(string, string)>) returns (html: string)
    requires forall i :: 0 <= i < |variables| ==> ValidKey(variables[i].0) && '$' !in variables[i].1
    ensures html == ApplyAll(template, variables)
    ensures variables == [] ==> html == template
  {
    html := template;
    var i := 0;
    while i < |variables|
      invariant 0 <= i <= |variables|
      invariant ApplyAll(html, variables[i..]) == ApplyAll(template, variables)
    {
      assert variables[i..][0] == variables[i] && variables[i..][1..] == variables[i + 1..];
      html := ReplaceAll(html, variables[i].0, variables[i].1);
      i := i + 1;
    }
    assert variables[i..] == [];
  }

  /** `{{`, padding, the key, padding, `}}`. */
  function Placeholder(key: string, pad1: string, pad2: string): string {
    "{{" + pad1 + key + pad2 + "}}"
  }

  lemma {:induction false} SpaceRunOfPadded(pad: string, s: string)
    requires AllSpace(pad)
    requires s == [] || !IsJsSpace(s[0])
    ensures AfterSpace(pad + s) == s
  {
    if pad != [] {
      assert (pad + s)[1..] == pad[1..] + s;
      SpaceRunOfPadded(pad[1..], s);
    } else {
      assert pad + s == s;
    }
  }

  /** The matcher's steps: open, skip padding, the key, skip padding, close. */
  lemma MatchSteps(t: string, key: string, u: string, w: string)
    requires OpensWith(t, '{') && AfterSpace(t[2..]) == u
    requires key <= u && AfterSpace(u[|key|..]) == w && OpensWith(w, '}')
    ensures AfterPlaceholder(t, key) == Some(w[2..])
  {
  }

  lemma AllSpaceConcat(a: string, b: string)
    requires AllSpace(a) && AllSpace(b)
    ensures AllSpace(a + b)
  {
    forall i | 0 <= i < |a + b| ensures IsJsSpace((a + b)[i]) {
      if i < |a| { assert (a + b)[i] == a[i]; } else { assert (a + b)[i] == b[i - |a|]; }
    }
  }

  lemma RecognisedNoKey(pad: string, rest: string)
    requires AllSpace(pad)
    ensures AfterPlaceholder("{{" + pad + "}}" + rest, []) == Some(rest)
  {
    var t := "{{" + pad + "}}" + rest;
    var tail := "}}" + rest;
    assert t[2..] == pad + tail;
    SpaceRunOfPadded(pad, tail);
    assert tail[0..] == [] + tail;
    SpaceRunOfPadded([], tail);
    assert tail[2..] == rest;
    MatchSteps(t, [], tail, tail);
  }

  lemma RecognisedKey(key: string, pad1: string, pad2: string, rest: string)
    requires ValidKey(key) && key != [] && AllSpace(pad1) && AllSpace(pad2)
    ensures AfterPlaceholder("{{" + pad1 + key + pad2 + "}}" + rest, key) == Some(rest)
  {
    var t := "{{" + pad1 + key + pad2 + "}}" + rest;
    var tail := "}}" + rest;
    var u := key + (pad2 + tail);
    KeyedShape(key, pad1, pad2, rest);
    assert u[0] == key[0];
    SpaceRunOfPadded(pad1, u);
    assert u[|key|..] == pad2 + tail;
    SpaceRunOfPadded(pad2, tail);
    assert tail[2..] == rest;
    MatchSteps(t, key, u, tail);
  }

  lemma KeyedShape(key: string, pad1: string, pad2: string, rest: string)
    ensures ("{{" + pad1 + key + pad2 + "}}" + rest)[2..] == pad1 + (key + (pad2 + ("}}" + rest)))
  {
  }

  /** A placeholder for the key, however padded, is recognised at the start of the text. */
  lemma PlaceholderRecognised(key: string, pad1: string, pad2: string, rest: string)
    requires ValidKey(key) && AllSpace(pad1) && AllSpace(pad2)
    ensures AfterPlaceholder(Placeholder(key, pad1, pad2) + rest, key) == Some(rest)
  {
    if key == [] {
      AllSpaceConcat(pad1, pad2);
      assert Placeholder(key, pad1, pad2) + rest == "{{" + (pad1 + pad2) + "}}" + rest;
      RecognisedNoKey(pad1 + pad2, rest);
    } else {
      assert Placeholder(key, pad1, pad2) + rest == "{{" + pad1 + key + pad2 + "}}" + rest;
      RecognisedKey(key, pad1, pad2, rest);
    }
  }

  /** A placeholder for the key is replaced by the value, and the scan goes on after it. */
  lemma PlaceholderReplaced(key: string, pad1: string, pad2: string, value: string, rest: string)
    requires ValidKey(key) && AllSpace(pad1) && AllSpace(pad2)
    ensures ReplaceAll(Placeholder(key, pad1, pad2) + rest, key, value) == value + ReplaceAll(rest, key, value)
  {
    PlaceholderRecognised(key, pad1, pad2, rest);
    ReplaceAllSubstitutes(Placeholder(key, pad1, pad2) + rest, key, value, rest);
  }

  /** A text is its whitespace run followed by what comes after it. */
  lemma SpaceSplit(s: string)
    ensures AllSpace(s[..SpaceRun(s)]) && s == s[..SpaceRun(s)] + AfterSpace(s)
  {
  }

  /** Conversely, whatever the matcher recognises is a placeholder for the key, with some padding. */
  lemma RecognisedIsPlaceholder(t: string, key: string, rest: string)
    requires AfterPlaceholder(t, key) == Some(rest)
    ensures exists pad1, pad2 :: AllSpace(pad1) && AllSpace(pad2) && t == Placeholder(key, pad1, pad2) + rest
  {
    PlaceholderParts(t, key, rest);
    var u := AfterSpace(t[2..]);
    var pad1 := t[2..][..SpaceRun(t[2..])];
    SpaceSplit(t[2..]);
    var v := u[|key|..];
    var pad2 := v[..SpaceRun(v)];
    SpaceSplit(v);
    PlaceholderAssembled(t, key, pad1, pad2, u, v, rest);
  }

  /** What the matcher checked, when it recognised a placeholder. */
  lemma PlaceholderParts(t: string, key: string, rest: string)
    requires AfterPlaceholder(t, key) == Some(rest)
    ensures t == "{{" + t[2..]
    ensures key <= AfterSpace(t[2..]) && AfterSpace(t[2..]) == key + AfterSpace(t[2..])[|key|..]
    ensures AfterSpace(AfterSpace(t[2..])[|key|..]) == "}}" + rest
  {
    var u := AfterSpace(t[2..]);
    var w := AfterSpace(u[|key|..]);
    OpensFrom(t, '{');
    PrefixFrom(key, u);
    OpensFrom(w, '}');
  }

  lemma OpensFrom(t: string, c: char)
    requires OpensWith(t, c)
    ensures t == [c, c] + t[2..]
  {
    assert t[..2] == [c, c];
    assert t == t[..2] + t[2..];
  }

  lemma PrefixFrom(key: string, u: string)
    requires key <= u
    ensures u == key + u[|key|..]
  {
    assert u[..|key|] == key;
    assert u == u[..|key|] + u[|key|..];
  }

  lemma PlaceholderAssembled(t: string, key: string, pad1: string, pad2: string, u: string, v: string, rest: string)
    requires AllSpace(pad1) && AllSpace(pad2)
    requires t == "{{" + (pad1 + u) && u == key + v && v == pad2 + ("}}" + rest)
    ensures t == Placeholder(key, pad1, pad2) + rest
  {
  }

  /** Text without `{` passes through the replacement untouched. */
  lemma {:induction false} LiteralKept(lit: string, rest: string, key: string, value: string)
    requires '{' !in lit
    ensures ReplaceAll(lit + rest, key, value) == lit + ReplaceAll(rest, key, value)
    decreases |lit|
  {
    if lit != [] {
      var t := lit + rest;
      assert t[0] == lit[0] && t[1..] == lit[1..] + rest;
      assert !OpensWith(t, '{');
      ReplaceAllCopies(t, key, value);
      LiteralKept(lit[1..], rest, key, value);
      FirstCopied(ReplaceAll(t, key, value), lit, ReplaceAll(t[1..], key, value), ReplaceAll(rest, key, value));
    } else {
      assert lit + rest == rest;
    }
  }

  lemma FirstCopied(x: string, lit: string, y: string, z: string)
    requires lit != [] && x == [lit[0]] + y && y == lit[1..] + z
    ensures x == lit + z
  {
    assert lit == [lit[0]] + lit[1..];
  }

  /** The text of `pieces` with `sep` between consecutive pieces. */
  function Join(pieces: seq<string>, sep: string): string
    requires |pieces| >= 1
  {
    if |pieces| == 1 then pieces[0] else pieces[0] + (sep + Join(pieces[1..], sep))
  }

  /** Brace-free pieces with a placeholder for `key` between consecutive ones, each with its own padding. */
  function Template(pieces: seq<string>, key: string, pads: seq<(string, string)>): string
    requires |pieces| >= 1 && |pads| == |pieces| - 1
  {
    if |pieces| == 1 then pieces[0]
    else pieces[0] + (Placeholder(key, pads[0].0, pads[0].1) + Template(pieces[1..], key, pads[1..]))
  }

  /**
   * Every placeholder is replaced and the text around them is kept: a template made of
   * brace-free pieces joined by `{{ key }}`, however each is padded, becomes those
   * pieces joined by the value.
   */
  lemma {:induction false} EveryPlaceholderFilled(pieces: seq<string>, key: string, pads: seq<(string, string)>, value: string)
    requires |pieces| >= 1 && |pads| == |pieces| - 1 && ValidKey(key)
    requires forall i :: 0 <= i < |pieces| ==> '{' !in pieces[i]
    requires forall i :: 0 <= i < |pads| ==> AllSpace(pads[i].0) && AllSpace(pads[i].1)
    ensures ReplaceAll(Template(pieces, key, pads), key, value) == Join(pieces, value)
    decreases |pieces|
  {
    if |pieces| == 1 {
      LiteralKept(pieces[0], [], key, value);
      assert pieces[0] + [] == pieces[0];
    } else {
      assert forall i :: 0 <= i < |pieces[1..]| ==> pieces[1..][i] == pieces[i + 1];
      assert forall i :: 0 <= i < |pads[1..]| ==> pads[1..][i] == pads[i + 1];
      EveryPlaceholderFilled(pieces[1..], key, pads[1..], value);
      FilledStep(pieces[0], key, pads[0].0, pads[0].1, Template(pieces[1..], key, pads[1..]), value, Join(pieces[1..], value));
    }
  }

  /** One step of the induction above: a brace-free piece, then a placeholder, then a tail already known to fill. */
  lemma FilledStep(head: string, key: string, pad1: string, pad2: string, tail: string, value: string, joined: string)
    requires ValidKey(key) && '{' !in head && AllSpace(pad1) && AllSpace(pad2)
    requires ReplaceAll(tail, key, value) == joined
    ensures ReplaceAll(head + (Placeholder(key, pad1, pad2) + tail), key, value) == head + (value + joined)
  {
    var sep := Placeholder(key, pad1, pad2);
    LiteralKept(head, sep + tail, key, value);
    PlaceholderReplaced(key, pad1, pad2, value, tail);
    ValueBetween(ReplaceAll(head + (sep + tail), key, value), head,
      ReplaceAll(sep + tail, key, value), value, ReplaceAll(tail, key, value), joined);
  }

  lemma ValueBetween(x: string, a: string, y: string, v: string, z: string, j: string)
    requires x == a + y && y == v + z && z == j
    ensures x == a + (v + j)
  {
  }

  /** No placeholder for `key` starts where one for a different key does, however either is padded. */
  lemma OtherPlaceholderNotMatched(other: string, pad1: string, pad2: string, key: string, rest: string)
    requires ValidKey(other) && ValidKey(key) && other != key && AllSpace(pad1) && AllSpace(pad2)
    ensures AfterPlaceholder(Placeholder(other, pad1, pad2) + rest, key).None?
  {
    var t := Placeholder(other, pad1, pad2) + rest;
    var close := "}}" + rest;
    var after := other + (pad2 + close);
    PlaceholderSplit(other, pad1, pad2, rest);
    assert t[2..] == pad1 + after;
    if other == [] {
      AllSpaceConcat(pad1, pad2);
      assert pad1 + after == (pad1 + pad2) + close;
      SpaceRunOfPadded(pad1 + pad2, close);
      assert key[0] != close[0];
      NoMatchAt(t, key, close);
    } else {
      assert after[0] == other[0] && IsKeyChar(other[0]);
      SpaceRunOfPadded(pad1, after);
      KeyNotAt(other, pad2, key, close);
      NoMatchAt(t, key, after);
    }
  }

  /** A placeholder and what follows it, as the matcher reads them. */
  lemma PlaceholderSplit(key: string, pad1: string, pad2: string, rest: string)
    ensures Placeholder(key, pad1, pad2) + rest == "{{" + (pad1 + (key + (pad2 + ("}}" + rest))))
  {
  }

  /** The matcher fails when, after the braces and the padding, the key and the closing braces are not both there. */
  lemma NoMatchAt(t: string, key: string, u: string)
    requires OpensWith(t, '{') && AfterSpace(t[2..]) == u
    requires !(key <= u && OpensWith(AfterSpace(u[|key|..]), '}'))
    ensures AfterPlaceholder(t, key).None?
  {
  }

  /** Where another non-empty key stands, `key` is not followed by padding and closing braces. */
  lemma KeyNotAt(other: string, pad2: string, key: string, close: string)
    requires ValidKey(other) && ValidKey(key) && other != key && other != [] && AllSpace(pad2)
    requires close != [] && close[0] == '}'
    ensures !(key <= other + (pad2 + close) && OpensWith(AfterSpace((other + (pad2 + close))[|key|..]), '}'))
  {
    var next := pad2 + close;
    var after := other + next;
    assert after[..|other|] == other;
    if |key| > |other| {
      assert after[|other|] == next[0];
      assert pad2 != [] ==> next[0] == pad2[0];
      assert !IsKeyChar(after[|other|]);
      assert key[|other|] != after[|other|];
    } else if |key| == |other| {
      assert key != after[..|key|];
    } else if key <= after {
      var more := after[|key|..];
      assert more[0] == other[|key|] && IsKeyChar(other[|key|]);
      SpaceRunOfPadded([], more);
      assert [] + more == more;
    }
  }

  /** A first character at which no placeholder is recognised is copied. */
  lemma UnmatchedCopied(c: char, u: string, key: string, value: string)
    requires AfterPlaceholder([c] + u, key).None?
    ensures ReplaceAll([c] + u, key, value) == [c] + ReplaceAll(u, key, value)
  {
    ReplaceAllCopies([c] + u, key, value);
    assert ([c] + u)[1..] == u;
  }

  /** The text of a placeholder after its two opening braces. */
  function Body(other: string, pad1: string, pad2: string): string {
    pad1 + other + pad2 + "}}"
  }

  /** A placeholder for a key is two braces followed by a text that neither starts with nor holds a brace. */
  lemma PlaceholderShape(other: string, pad1: string, pad2: string)
    requires ValidKey(other) && AllSpace(pad1) && AllSpace(pad2)
    ensures Placeholder(other, pad1, pad2) == ['{'] + (['{'] + Body(other, pad1, pad2))
    ensures Body(other, pad1, pad2) != [] && Body(other, pad1, pad2)[0] != '{' && '{' !in Body(other, pad1, pad2)
  {
    var body := Body(other, pad1, pad2);
    assert forall i :: 0 <= i < |pad1| ==> body[i] == pad1[i];
    assert forall i :: 0 <= i < |other| ==> body[|pad1| + i] == other[i];
    assert forall i :: 0 <= i < |pad2| ==> body[|pad1| + |other| + i] == pad2[i];
    assert body[|body| - 2] == '}' && body[|body| - 1] == '}';
    forall i | 0 <= i < |body| ensures body[i] != '{' {
      if i < |pad1| { assert IsJsSpace(pad1[i]); }
      else if i < |pad1| + |other| { assert IsKeyChar(other[i - |pad1|]); }
      else if i < |pad1| + |other| + |pad2| { assert IsJsSpace(pad2[i - |pad1| - |other|]); }
    }
  }

  /** A placeholder for another key, however padded, is left as it is. */
  lemma OtherPlaceholderKept(other: string, pad1: string, pad2: string, key: string, value: string, rest: string)
    requires ValidKey(other) && ValidKey(key) && other != key && AllSpace(pad1) && AllSpace(pad2)
    ensures ReplaceAll(Placeholder(other, pad1, pad2) + rest, key, value)
         == Placeholder(other, pad1, pad2) + ReplaceAll(rest, key, value)
  {
    PlaceholderShape(other, pad1, pad2);
    OtherPlaceholderNotMatched(other, pad1, pad2, key, rest);
    BracedTextKept(Placeholder(other, pad1, pad2), Body(other, pad1, pad2), rest, key, value);
  }

  /** Two braces and a brace-free text, where no placeholder starts, pass through the replacement. */
  lemma BracedTextKept(p: string, body: string, rest: string, key: string, value: string)
    requires p == ['{'] + (['{'] + body) && body != [] && body[0] != '{' && '{' !in body
    requires AfterPlaceholder(p + rest, key).None?
    ensures ReplaceAll(p + rest, key, value) == p + ReplaceAll(rest, key, value)
  {
    assert p + rest == ['{'] + (['{'] + (body + rest));
    assert (body + rest)[0] == body[0];
    BracesCopied(body + rest, key, value);
    LiteralKept(body, rest, key, value);
    TwoBracesBefore(ReplaceAll(p + rest, key, value),
      ReplaceAll(body + rest, key, value), body, ReplaceAll(rest, key, value));
  }

  /** Two opening braces at which no placeholder starts are copied, when no third one follows. */
  lemma BracesCopied(u: string, key: string, value: string)
    requires AfterPlaceholder(['{'] + (['{'] + u), key).None? && (u == [] || u[0] != '{')
    ensures ReplaceAll(['{'] + (['{'] + u), key, value) == ['{'] + (['{'] + ReplaceAll(u, key, value))
  {
    UnmatchedCopied('{', ['{'] + u, key, value);
    assert !OpensWith(['{'] + u, '{');
    UnmatchedCopied('{', u, key, value);
  }

  lemma TwoBracesBefore(x: string, z: string, body: string, tail: string)
    requires x == ['{'] + (['{'] + z) && z == body + tail
    ensures x == (['{'] + (['{'] + body)) + tail
  {
  }

  /**
   * A placeholder for a key that is not among the variables survives `append`, after any
   * brace-free text: the text after it is filled as if the placeholder were not there.
   */
  lemma {:induction false} UnknownPlaceholderSurvives(pre: string, other: string, pad1: string, pad2: string,
                                                      rest: string, variables: seq<(string, string)>)
    requires '{' !in pre && ValidKey(other) && AllSpace(pad1) && AllSpace(pad2)
    requires forall i :: 0 <= i < |variables| ==> ValidKey(variables[i].0) && variables[i].0 != other
    ensures ApplyAll(pre + (Placeholder(other, pad1, pad2) + rest), variables)
         == pre + (Placeholder(other, pad1, pad2) + ApplyAll(rest, variables))
    decreases |variables|
  {
    if variables != [] {
      var (key, value) := variables[0];
      OtherPlaceholderKept(other, pad1, pad2, key, value, rest);
      KeptAfterLiteral(pre, Placeholder(other, pad1, pad2), rest, key, value);
      assert forall i :: 0 <= i < |variables[1..]| ==> variables[1..][i] == variables[i + 1];
      UnknownPlaceholderSurvives(pre, other, pad1, pad2, ReplaceAll(rest, key, value), variables[1..]);
    }
  }

  /** Text that one replacement keeps at the head is still kept after brace-free text. */
  lemma KeptAfterLiteral(pre: string, p: string, rest: string, key: string, value: string)
    requires '{' !in pre && ReplaceAll(p + rest, key, value) == p + ReplaceAll(rest, key, value)
    ensures ReplaceAll(pre + (p + rest), key, value) == pre + (p + ReplaceAll(rest, key, value))
  {
    LiteralKept(pre, p + rest, key, value);
  }

  /** A later key also fills placeholders that an earlier value brought in. */
  lemma LaterKeySeesEarlierValues(first: string, second: string, value: string)
    requires ValidKey(first) && ValidKey(second)
    ensures ApplyAll(Placeholder(first, "", ""), [(first, Placeholder(second, "", "")), (second, value)]) == value
  {
    var p1, p2 := Placeholder(first, "", ""), Placeholder(second, "", "");
    PlaceholderReplaced(first, "", "", p2, []);
    assert p1 + [] == p1;
    assert p2 + [] == p2;
    PlaceholderReplaced(second, "", "", value, []);
    assert value + [] == value;
    var vs := [(first, p2), (second, value)];
    assert vs[1..] == [(second, value)];
    assert vs[1..][1..] == [];
    assert ReplaceAll(p1, first, p2) == p2;
    assert ApplyAll(p2, vs[1..]) == ApplyAll(value, []);
  }
}
