// The lexer of the prompt template language: one leftmost, shortest-match split
// (prompts/renderer.py, line 56).
module TemplateLexer {
  import opened Prelude

  predicate At(s: string, i: int, pair: string)
    requires |pair| == 2
  {
    0 <= i && i + 2 <= |s| && s[i] == pair[0] && s[i + 1] == pair[1]
  }

  // The first occurrence of a two-character mark at or after `i`.
  function FirstFrom(s: string, i: nat, pair: string): (r: Option<nat>)
    requires |pair| == 2
    ensures r.Some? ==> i <= r.value && At(s, r.value, pair) && forall j :: i <= j < r.value ==> !At(s, j, pair)
    ensures r.None? ==> forall j :: i <= j ==> !At(s, j, pair)
    decreases |s| - i
  {
    if i + 2 > |s| then None
    else if At(s, i, pair) then Some(i)
    else FirstFrom(s, i + 1, pair)
  }

  // Where a match that starts at `i` ends.
  function TagEnd(s: string, i: nat): (r: Option<nat>)
    ensures r.Some? ==> i + 4 <= r.value <= |s|
  {
    if At(s, i, "{{") && FirstFrom(s, i + 2, "}}").Some? then Some(FirstFrom(s, i + 2, "}}").value + 2)
    else if At(s, i, "{%") && FirstFrom(s, i + 2, "%}").Some? then Some(FirstFrom(s, i + 2, "%}").value + 2)
    else None
  }

  function FirstTag(s: string, i: nat): (r: Option<nat>)
    ensures r.Some? ==> i <= r.value < |s| && TagEnd(s, r.value).Some? && forall j :: i <= j < r.value ==> TagEnd(s, j).None?
    ensures r.None? ==> forall j :: i <= j < |s| ==> TagEnd(s, j).None?
    decreases |s| - i
  {
    if i >= |s| then None else if TagEnd(s, i).Some? then Some(i) else FirstTag(s, i + 1)
  }

  // `re.split` with a capturing group: texts and tags in turn, a text at either end.
  function Lex(s: string): (tokens: seq<string>)
    ensures tokens != []
    decreases |s|
  {
    var at := FirstTag(s, 0);
    if at.None? then [s]
    else
      var end := TagEnd(s, at.value).value;
      [s[..at.value], s[at.value..end]] + Lex(s[end..])
  }

  function Concat(parts: seq<string>): string {
    if parts == [] then "" else parts[0] + Concat(parts[1..])
  }

  // Nothing of the input is lost or moved.
  lemma {:induction false} TokensConcatenate(s: string)
    ensures Concat(Lex(s)) == s
    decreases |s|
  {
    var at := FirstTag(s, 0);
    if at.None? {
      assert [s][1..] == [];
    } else {
      var end := TagEnd(s, at.value).value;
      TokensConcatenate(s[end..]);
      var tokens := Lex(s);
      assert tokens[1..][1..] == Lex(s[end..]);
      assert s == s[..at.value] + (s[at.value..end] + s[end..]);
    }
  }

  // A whole tag, with no earlier closing mark.
  predicate IsTag(g: string) {
    TagEnd(g, 0) == Some(|g|)
  }

  // A text the lexer leaves alone. `last`: nothing follows it.
  predicate Plain(t: string, last: bool) {
    && (forall i :: 0 <= i < |t| ==> !At(t, i, "{{") && !At(t, i, "{%"))
    && (last || t == "" || t[|t| - 1] != '{')
  }

  lemma FirstUnique(s: string, i: nat, pair: string, r: nat)
    requires |pair| == 2 && i <= r && At(s, r, pair) && forall j :: i <= j < r ==> !At(s, j, pair)
    ensures FirstFrom(s, i, pair) == Some(r)
  {
  }

  // A tag ends where it did alone, whatever surrounds it.
  lemma TagInPlace(t: string, g: string, r: string)
    requires IsTag(g)
    ensures TagEnd(t + g + r, |t|) == Some(|t| + |g|)
  {
    var s := t + g + r;
    assert forall i :: 0 <= i < |g| ==> s[|t| + i] == g[i];
    var close := if At(g, 0, "{{") && FirstFrom(g, 2, "}}").Some? then "}}" else "%}";
    var e := FirstFrom(g, 2, close).value;
    assert At(s, |t| + e, close);
    forall j | |t| + 2 <= j < |t| + e ensures !At(s, j, close) {
      assert !At(g, j - |t|, close);
    }
    FirstUnique(s, |t| + 2, close, |t| + e);
    if close == "%}" {
      assert At(g, 0, "{%");
    }
  }

  lemma PlainHasNoTag(t: string, g: string, r: string, i: nat)
    requires Plain(t, false) && i < |t|
    ensures TagEnd(t + g + r, i).None?
  {
    var s := t + g + r;
    assert s[i] == t[i];
    if i + 1 < |t| {
      assert s[i + 1] == t[i + 1];
      assert !At(t, i, "{{") && !At(t, i, "{%");
    }
  }

  // Text, tag and the rest are lexed apart.
  lemma LexTag(t: string, g: string, r: string)
    requires Plain(t, false) && IsTag(g)
    ensures Lex(t + g + r) == [t, g] + Lex(r)
  {
    var s := t + g + r;
    TagInPlace(t, g, r);
    forall i | 0 <= i < |t| ensures TagEnd(s, i).None? {
      PlainHasNoTag(t, g, r, i);
    }
    assert FirstTag(s, 0) == Some(|t|);
    assert s[..|t|] == t && s[|t|..|t| + |g|] == g && s[|t| + |g|..] == r;
  }

  lemma LexLast(t: string)
    requires Plain(t, true)
    ensures Lex(t) == [t]
  {
    forall i | 0 <= i < |t| ensures TagEnd(t, i).None? {
      assert !At(t, i, "{{") && !At(t, i, "{%");
    }
  }

  // Every second token is one whole tag.
  lemma {:induction false} LexAlternates(s: string)
    ensures |Lex(s)| % 2 == 1 && forall k :: 0 <= k < |Lex(s)| && k % 2 == 1 ==> IsTag(Lex(s)[k])
    decreases |s|
  {
    var at := FirstTag(s, 0);
    if at.Some? {
      var end := TagEnd(s, at.value).value;
      var rest := Lex(s[end..]);
      LexAlternates(s[end..]);
      CutOut(s, at.value);
      forall k | 0 <= k < |Lex(s)| && k % 2 == 1 ensures IsTag(Lex(s)[k]) {
        if k > 1 {
          assert Lex(s)[k] == rest[k - 2];
        }
      }
    }
  }

  lemma CutOut(s: string, i: nat)
    requires TagEnd(s, i).Some?
    ensures IsTag(s[i..TagEnd(s, i).value])
  {
    var end := TagEnd(s, i).value;
    var g := s[i..end];
    assert forall j :: 0 <= j < |g| ==> g[j] == s[i + j];
    var close := if At(s, i, "{{") && FirstFrom(s, i + 2, "}}").Some? then "}}" else "%}";
    forall j | 2 <= j < |g| - 2 ensures !At(g, j, close) {
      assert !At(s, i + j, close);
    }
    FirstUnique(g, 2, close, |g| - 2);
    if close == "%}" {
      assert At(g, 0, "{%");
    }
  }
}
