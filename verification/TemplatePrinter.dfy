// Writing a template tree out and reading it back (prompts/renderer.py, lines 54-93).
module TemplatePrinter {
  import opened Prelude
  import opened TemplateLexer
  import opened TemplateParser

  // ---- Canonical tags ----

  function Tag(open: string, inner: string, close: string): string { open + " " + inner + " " + close }
  function VariableTag(e: string): string { Tag("{{", e, "}}") }
  function DirectiveTag(d: string): string { Tag("{%", d, "%}") }
  function Keyword(word: string, rest: string): string { word + " " + rest }
  function IfDirective(c: string): string { Keyword("if", c) }
  function ForDirective(name: string, items: string): string { Keyword("for", name + (" " + Keyword("in", items))) }

  // What can stand inside a tag without ending it, and survives stripping.
  predicate Inner(d: string) {
    d != "" && !IsSpace(d[0]) && !IsSpace(d[|d| - 1]) && NoBrace(d)
  }

  predicate NoBrace(d: string) {
    forall i :: 0 <= i < |d| ==> d[i] != '}'
  }

  lemma NoBraceConcat(a: string, b: string)
    requires NoBrace(a) && NoBrace(b)
    ensures NoBrace(a + b)
  {
  }

  lemma StripsTo(d: string)
    requires Inner(d)
    ensures Strip(" " + d + " ") == d
  {
    var s := " " + d + " ";
    assert s[1..] == d + " " && TrimStart(s) == TrimStart(s[1..]);
    assert TrimStart(d + " ") == d + " ";
    assert (d + " ")[..|d|] == d;
    assert TrimEnd(d + " ") == TrimEnd(d);
  }

  lemma TagInside(open: string, d: string, close: string)
    requires |open| == 2 && |close| == 2 && Inner(d)
    ensures Inside(Tag(open, d, close)) == d
  {
    var tag := Tag(open, d, close);
    assert tag[2..|tag| - 2] == " " + d + " ";
    StripsTo(d);
  }

  lemma TagCloses(open: string, d: string, close: string)
    requires Inner(d) && |open| == 2 && open[0] == '{' && |close| == 2 && close[1] == '}'
    requires (open == "{{" && close == "}}") || (open == "{%" && close == "%}")
    ensures var tag := Tag(open, d, close);
            IsTag(tag) && At(tag, 0, open) && tag[1] == open[1] && EndsWith(tag, close)
  {
    var tag := Tag(open, d, close);
    var n := |d| + 4;
    assert |tag| == n + 2 && tag[0] == open[0] && tag[1] == open[1] && tag[2] == ' ' && tag[n - 1] == ' ';
    forall i | 2 <= i < n ensures tag[i] != '}' {
      if 3 <= i < n - 1 {
        assert tag[i] == d[i - 3];
      }
    }
    assert tag[n] == close[0] && tag[n + 1] == close[1] && At(tag, n, close);
    forall j | 2 <= j < n ensures !At(tag, j, close) {
      if j + 1 < n {
        assert tag[j + 1] != '}';
      }
    }
    FirstUnique(tag, 2, close, n);
  }

  lemma VariableTagFacts(e: string)
    requires Inner(e)
    ensures var tag := VariableTag(e);
            IsTag(tag) && At(tag, 0, "{{") && EndsWith(tag, "}}") && Inside(tag) == e
  {
    TagInside("{{", e, "}}");
    TagCloses("{{", e, "}}");
  }

  lemma DirectiveTagFacts(d: string)
    requires Inner(d)
    ensures var tag := DirectiveTag(d);
            IsTag(tag) && !At(tag, 0, "{{") && At(tag, 0, "{%") && Inside(tag) == d
  {
    TagInside("{%", d, "%}");
    TagCloses("{%", d, "%}");
  }

  lemma PathIsInner(p: string)
    requires IsPath(p)
    ensures Inner(p)
  {
    assert IsPathChar(p[0]) && IsPathChar(p[|p| - 1]);
  }

  lemma {:induction false} TrimmedAreSpaces(s: string)
    ensures forall i :: 0 <= i < |s| - |TrimStart(s)| ==> IsSpace(s[i])
  {
    if s != "" && IsSpace(s[0]) {
      TrimmedAreSpaces(s[1..]);
      forall i | 0 <= i < |s| - |TrimStart(s)| ensures IsSpace(s[i]) {
        if i > 0 { assert s[i] == s[1..][i - 1]; }
      }
    }
  }

  lemma NoBraceAround(s: string)
    requires NoBrace(TrimStart(s))
    ensures NoBrace(s)
  {
    TrimmedAreSpaces(s);
    var n := |s| - |TrimStart(s)|;
    forall i | 0 <= i < |s| ensures s[i] != '}' {
      if i >= n { assert s[i] == TrimStart(s)[i - n]; }
    }
  }

  // What may follow a path inside a tag.
  predicate Ending(s: string) {
    s != "" && !IsSpace(s[|s| - 1]) && NoBrace(s)
  }

  lemma TrimmedEnding(s: string)
    requires Ending(TrimStart(s))
    ensures Ending(s)
  {
    NoBraceAround(s);
    assert s[|s| - 1] == TrimStart(s)[|TrimStart(s)| - 1];
  }

  lemma BarEnding(rest: string)
    requires rest != "" && rest[0] == '|' && Ending(rest[1..])
    ensures Ending(rest)
  {
    assert rest == [rest[0]] + rest[1..];
    NoBraceConcat([rest[0]], rest[1..]);
  }

  // The bar, the spaces around it and the filter name.
  lemma FilterIsEnding(tail: string)
    requires TrimStart(tail) != "" && TrimStart(tail)[0] == '|' && Ending(TrimStart(TrimStart(tail)[1..]))
    ensures Ending(tail)
  {
    var rest := TrimStart(tail);
    TrimmedEnding(rest[1..]);
    BarEnding(rest);
    TrimmedEnding(tail);
  }

  lemma FilterName(filter: string)
    requires filter in {"summary_only", "upper"}
    ensures Ending(filter)
  {
  }

  lemma InnerThenEnding(path: string, tail: string)
    requires Inner(path) && Ending(tail)
    ensures Inner(path + tail)
  {
    NoBraceConcat(path, tail);
  }

  lemma FilterPart(e: string)
    requires IsExpression(e) && |LeadingPath(e)| < |e|
    ensures Ending(e[|LeadingPath(e)|..])
  {
    var tail := e[|LeadingPath(e)|..];
    FilterName(TrimStart(TrimStart(tail)[1..]));
    FilterIsEnding(tail);
  }

  lemma ExpressionIsInner(e: string)
    requires IsExpression(e)
    ensures Inner(e)
  {
    var path := LeadingPath(e);
    PathIsInner(path);
    if |path| < |e| {
      FilterPart(e);
      InnerThenEnding(path, e[|path|..]);
      assert e == path + e[|path|..];
    } else {
      assert e == path;
    }
  }

  // ---- Directives are read as they are written ----

  lemma KeywordRead(keyword: string, s: string)
    requires s != "" && !IsSpace(s[0])
    ensures AfterKeyword(Keyword(keyword, s), keyword) == Some(s)
  {
    var d := Keyword(keyword, s);
    assert d[|keyword|..] == " " + s;
    SpaceTrimmed(s);
  }

  lemma SpaceTrimmed(s: string)
    requires s != "" && !IsSpace(s[0])
    ensures TrimStart(" " + s) == s
  {
    assert (" " + s)[1..] == s;
  }

  // The directives that end a block.
  const STOPS: set<string> := {"else", "endif", "endfor"}

  lemma StopIsInner(d: string)
    requires d in STOPS
    ensures Inner(d)
  {
  }

  lemma NotAStop(d: string)
    requires d != "" && d[0] != 'e'
    ensures d !in STOPS
  {
  }

  lemma IfRead(c: string)
    requires IsPath(c)
    ensures MatchIf(IfDirective(c)) == Some(c)
  {
    PathIsInner(c);
    KeywordRead("if", c);
  }

  lemma IfIsInner(c: string)
    requires IsPath(c)
    ensures Inner(IfDirective(c)) && IfDirective(c) !in STOPS
  {
    PathIsInner(c);
    KeywordNoBrace("if", c);
    var d := IfDirective(c);
    assert d[0] == 'i' && d[|d| - 1] == c[|c| - 1];
    NotAStop(d);
  }

  lemma {:induction false} WordRead(name: string, s: string)
    requires (forall i :: 0 <= i < |name| ==> IsWordChar(name[i])) && s != "" && !IsWordChar(s[0])
    ensures LeadingWord(name + s) == name
  {
    if name == "" {
      assert name + s == s;
    } else {
      assert (name + s)[1..] == name[1..] + s;
      WordRead(name[1..], s);
    }
  }

  lemma ForRead(name: string, items: string)
    requires IsName(name) && IsPath(items)
    ensures MatchFor(ForDirective(name, items)) == Some((name, items)) && MatchIf(ForDirective(name, items)) == None
  {
    PathIsInner(items);
    var third := Keyword("in", items);
    var second := " " + third;
    KeywordRead("for", name + second);
    WordRead(name, second);
    assert (name + second)[|name|..] == second;
    SpaceTrimmed(third);
    KeywordRead("in", items);
    assert ForDirective(name, items)[0] == 'f';
  }

  lemma ForIsInner(name: string, items: string)
    requires IsName(name) && IsPath(items)
    ensures Inner(ForDirective(name, items)) && ForDirective(name, items) !in STOPS
  {
    PathIsInner(items);
    assert forall i :: 0 <= i < |name| ==> IsWordChar(name[i]);
    KeywordNoBrace("in", items);
    NoBraceConcat(" ", Keyword("in", items));
    NoBraceConcat(name, " " + Keyword("in", items));
    KeywordNoBrace("for", name + (" " + Keyword("in", items)));
    var d := ForDirective(name, items);
    assert d[0] == 'f' && d[|d| - 1] == items[|items| - 1];
    NotAStop(d);
  }

  lemma KeywordNoBrace(word: string, rest: string)
    requires NoBrace(word) && NoBrace(rest)
    ensures NoBrace(Keyword(word, rest))
  {
    NoBraceConcat(word, " ");
    NoBraceConcat(word + " ", rest);
  }
}
