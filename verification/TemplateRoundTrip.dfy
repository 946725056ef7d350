// A template tree written out, lexed and parsed is the same tree, up to empty text nodes, and renders the
// same (prompts/renderer.py, lines 54-121).
module TemplateRoundTrip {
  import opened Prelude
  import opened TemplateLexer
  import opened TemplateParser
  import opened TemplatePrinter

  // ---- Writing a tree out ----

  datatype Piece = Words(text: string) | Mark(tag: string)

  // A tree's texts and tags, followed by `k`.
  function Emit(nodes: seq<Node>, k: seq<Piece>): seq<Piece>
    decreases nodes, 0
  {
    if nodes == [] then k else EmitNode(nodes[0], Emit(nodes[1..], k))
  }

  function EmitNode(n: Node, k: seq<Piece>): seq<Piece>
    decreases n, 0
  {
    match n
    case Text(t) => [Words(t)] + k
    case Variable(e) => [Mark(VariableTag(e))] + k
    case If(c, yes, no) =>
      [Mark(DirectiveTag(IfDirective(c)))] + Emit(yes, EmitElse(no, [Mark(DirectiveTag("endif"))] + k))
    case For(name, items, body) =>
      [Mark(DirectiveTag(ForDirective(name, items)))] + Emit(body, [Mark(DirectiveTag("endfor"))] + k)
  }

  function EmitElse(no: seq<Node>, k: seq<Piece>): seq<Piece>
    decreases no, 1
  {
    if no == [] then k else [Mark(DirectiveTag("else"))] + Emit(no, k)
  }

  function Joined(pieces: seq<Piece>): string {
    if pieces == [] then ""
    else (if pieces[0].Words? then pieces[0].text else pieces[0].tag) + Joined(pieces[1..])
  }

  function Print(nodes: seq<Node>): string {
    Joined(Emit(nodes, []))
  }

  // ---- Trees that can be written out ----

  // Texts hold no opening mark and do not end in `{` before a tag; names, paths and expressions are well
  // formed. `last`: nothing follows.
  predicate Printable(nodes: seq<Node>, last: bool)
    decreases nodes
  {
    nodes == [] || (PrintableNode(nodes[0], last && |nodes| == 1) && Printable(nodes[1..], last))
  }

  predicate PrintableNode(n: Node, last: bool)
    decreases n
  {
    match n
    case Text(t) => Plain(t, last)
    case Variable(e) => IsExpression(e)
    case If(c, yes, no) => IsPath(c) && Printable(yes, false) && Printable(no, false)
    case For(name, items, body) => IsName(name) && IsPath(items) && Printable(body, false)
  }

  // Neighbouring texts joined into one: they cannot be told apart once written out.
  function Fuse(nodes: seq<Node>): seq<Node>
    decreases nodes
  {
    if nodes == [] then [] else Join(FuseNode(nodes[0]), Fuse(nodes[1..]))
  }

  function FuseNode(n: Node): Node
    decreases n
  {
    match n
    case Text(_) => n
    case Variable(_) => n
    case If(c, yes, no) => If(c, Fuse(yes), Fuse(no))
    case For(name, items, body) => For(name, items, Fuse(body))
  }

  function Join(n: Node, nodes: seq<Node>): seq<Node> {
    if n.Text? && nodes != [] && nodes[0].Text? then [Text(n.text + nodes[0].text)] + nodes[1..] else [n] + nodes
  }

  // Printable, with no two texts side by side.
  predicate Settled(nodes: seq<Node>, last: bool)
    decreases nodes
  {
    nodes == [] ||
    (&& SettledNode(nodes[0], last && |nodes| == 1)
     && (|nodes| > 1 && nodes[0].Text? ==> !nodes[1].Text?)
     && Settled(nodes[1..], last))
  }

  predicate SettledNode(n: Node, last: bool)
    decreases n
  {
    match n
    case Text(t) => Plain(t, last)
    case Variable(e) => IsExpression(e)
    case If(c, yes, no) => IsPath(c) && Settled(yes, false) && Settled(no, false)
    case For(name, items, body) => IsName(name) && IsPath(items) && Settled(body, false)
  }

  // No two texts are side by side, at any depth.
  predicate Apart(nodes: seq<Node>)
    decreases nodes
  {
    nodes == [] || (ApartNode(nodes[0]) && (|nodes| > 1 && nodes[0].Text? ==> !nodes[1].Text?) && Apart(nodes[1..]))
  }

  predicate ApartNode(n: Node)
    decreases n
  {
    match n
    case Text(_) => true
    case Variable(_) => true
    case If(_, yes, no) => Apart(yes) && Apart(no)
    case For(_, _, body) => Apart(body)
  }

  lemma JoinApart(n: Node, nodes: seq<Node>)
    requires ApartNode(n) && Apart(nodes)
    ensures Apart(Join(n, nodes))
  {
    assert ([n] + nodes)[1..] == nodes;
    if n.Text? && nodes != [] && nodes[0].Text? {
      var joined := [Text(n.text + nodes[0].text)] + nodes[1..];
      assert joined[1..] == nodes[1..];
      assert |joined| > 1 ==> joined[1] == nodes[1];
    }
  }

  lemma {:induction false} FuseApart(nodes: seq<Node>)
    ensures Apart(Fuse(nodes))
    decreases nodes
  {
    if nodes != [] {
      match nodes[0] {
        case Text(_) =>
        case Variable(_) =>
        case If(_, yes, no) =>
          FuseApart(yes);
          FuseApart(no);
        case For(_, _, body) =>
          FuseApart(body);
      }
      FuseApart(nodes[1..]);
      JoinApart(FuseNode(nodes[0]), Fuse(nodes[1..]));
    }
  }

  lemma {:induction false} PrintableApart(nodes: seq<Node>, last: bool)
    requires Printable(nodes, last) && Apart(nodes)
    ensures Settled(nodes, last)
    decreases nodes
  {
    if nodes != [] {
      match nodes[0] {
        case Text(_) =>
        case Variable(_) =>
        case If(_, yes, no) =>
          PrintableApart(yes, false);
          PrintableApart(no, false);
        case For(_, _, body) =>
          PrintableApart(body, false);
      }
      PrintableApart(nodes[1..], last);
    }
  }

  // A tree without neighbouring texts is left as it is.
  lemma {:induction false} FuseNothing(nodes: seq<Node>)
    requires Apart(nodes)
    ensures Fuse(nodes) == nodes
    decreases nodes
  {
    if nodes != [] {
      match nodes[0] {
        case Text(_) =>
        case Variable(_) =>
        case If(_, yes, no) =>
          FuseNothing(yes);
          FuseNothing(no);
        case For(_, _, body) =>
          FuseNothing(body);
      }
      FuseNothing(nodes[1..]);
      assert [nodes[0]] + nodes[1..] == nodes;
    }
  }

  // ---- Joining texts changes nothing that is written ----

  lemma JoinedFirst(p: Piece, k: seq<Piece>)
    ensures Joined([p] + k) == (if p.Words? then p.text else p.tag) + Joined(k)
  {
    assert ([p] + k)[1..] == k;
  }

  lemma JoinWritten(n: Node, nodes: seq<Node>, k: seq<Piece>)
    ensures Joined(Emit(Join(n, nodes), k)) == Joined(EmitNode(n, Emit(nodes, k)))
  {
    if n.Text? && nodes != [] && nodes[0].Text? {
      var a, b, rest := n.text, nodes[0].text, Emit(nodes[1..], k);
      var joined := [Text(a + b)] + nodes[1..];
      assert joined[1..] == nodes[1..] && joined[0] == Text(a + b);
      JoinedFirst(Words(a + b), rest);
      JoinedFirst(Words(b), rest);
      JoinedFirst(Words(a), [Words(b)] + rest);
      Associative(a, b, Joined(rest));
    } else {
      assert ([n] + nodes)[1..] == nodes && ([n] + nodes)[0] == n;
    }
  }

  lemma FuseEmpty(nodes: seq<Node>)
    ensures Fuse(nodes) == [] <==> nodes == []
  {
  }

  lemma {:induction false} FuseWritten(nodes: seq<Node>, k: seq<Piece>, k': seq<Piece>)
    requires Joined(k) == Joined(k')
    ensures Joined(Emit(nodes, k)) == Joined(Emit(Fuse(nodes), k'))
    decreases nodes, 0
  {
    if nodes != [] {
      FuseWritten(nodes[1..], k, k');
      FuseNodeWritten(nodes[0], Emit(nodes[1..], k), Emit(Fuse(nodes[1..]), k'));
      JoinWritten(FuseNode(nodes[0]), Fuse(nodes[1..]), k');
    }
  }

  lemma {:induction false} FuseElseWritten(no: seq<Node>, k: seq<Piece>, k': seq<Piece>)
    requires Joined(k) == Joined(k')
    ensures Joined(EmitElse(no, k)) == Joined(EmitElse(Fuse(no), k'))
    decreases no, 1
  {
    FuseEmpty(no);
    if no != [] {
      FuseWritten(no, k, k');
      JoinedFirst(Mark(DirectiveTag("else")), Emit(no, k));
      JoinedFirst(Mark(DirectiveTag("else")), Emit(Fuse(no), k'));
    }
  }

  lemma {:induction false} FuseNodeWritten(n: Node, k: seq<Piece>, k': seq<Piece>)
    requires Joined(k) == Joined(k')
    ensures Joined(EmitNode(n, k)) == Joined(EmitNode(FuseNode(n), k'))
    decreases n, 2
  {
    match n
    case Text(t) =>
      JoinedFirst(Words(t), k);
      JoinedFirst(Words(t), k');
    case Variable(e) =>
      JoinedFirst(Mark(VariableTag(e)), k);
      JoinedFirst(Mark(VariableTag(e)), k');
    case If(c, yes, no) =>
      var end := Mark(DirectiveTag("endif"));
      JoinedFirst(end, k);
      JoinedFirst(end, k');
      FuseElseWritten(no, [end] + k, [end] + k');
      FuseWritten(yes, EmitElse(no, [end] + k), EmitElse(Fuse(no), [end] + k'));
      JoinedFirst(Mark(DirectiveTag(IfDirective(c))), Emit(yes, EmitElse(no, [end] + k)));
      JoinedFirst(Mark(DirectiveTag(IfDirective(c))), Emit(Fuse(yes), EmitElse(Fuse(no), [end] + k')));
    case For(name, items, body) =>
      var end := Mark(DirectiveTag("endfor"));
      JoinedFirst(end, k);
      JoinedFirst(end, k');
      FuseWritten(body, [end] + k, [end] + k');
      JoinedFirst(Mark(DirectiveTag(ForDirective(name, items))), Emit(body, [end] + k));
      JoinedFirst(Mark(DirectiveTag(ForDirective(name, items))), Emit(Fuse(body), [end] + k'));
  }

  // ---- Lexing what was written ----

  predicate WellSpaced(pieces: seq<Piece>) {
    pieces == [] ||
    (&& WellSpaced(pieces[1..])
     && match pieces[0]
        case Words(t) => Plain(t, |pieces| == 1) && (|pieces| > 1 ==> pieces[1].Mark?)
        case Mark(g) => IsTag(g))
  }

  // The tokens of such pieces: empty texts come between tags and at the ends.
  function Tokens(pieces: seq<Piece>): seq<string> {
    if pieces == [] then [""]
    else if pieces[0].Mark? then ["", pieces[0].tag] + Tokens(pieces[1..])
    else [pieces[0].text] + if |pieces| == 1 then [] else Tokens(pieces[1..])[1..]
  }

  lemma {:induction false} TokensLead(pieces: seq<Piece>)
    ensures Tokens(pieces) != []
    ensures pieces == [] || pieces[0].Mark? ==> Tokens(pieces)[0] == ""
  {
  }

  lemma {:induction false} LexJoined(pieces: seq<Piece>)
    requires WellSpaced(pieces)
    ensures Lex(Joined(pieces)) == Tokens(pieces)
    decreases |pieces|
  {
    if pieces == [] {
      LexNothing();
    } else if pieces[0].Mark? {
      LexJoined(pieces[1..]);
      LexMark(pieces[0].tag, Joined(pieces[1..]));
    } else if |pieces| == 1 {
      LexAlone(pieces);
    } else {
      NextIsSpaced(pieces);
      LexJoined(pieces[2..]);
      TextThenMark(pieces);
      LexTag(pieces[0].text, pieces[1].tag, Joined(pieces[2..]));
    }
  }

  lemma LexNothing()
    ensures Lex("") == [""]
  {
    LexLast("");
  }

  lemma LexMark(g: string, r: string)
    requires IsTag(g)
    ensures Lex(g + r) == ["", g] + Lex(r)
  {
    LexTag("", g, r);
    assert "" + g + r == g + r;
  }

  lemma LexAlone(pieces: seq<Piece>)
    requires |pieces| == 1 && pieces[0].Words? && Plain(pieces[0].text, true)
    ensures Lex(Joined(pieces)) == Tokens(pieces)
  {
    LexLast(pieces[0].text);
    assert pieces[0].text + "" == pieces[0].text;
  }

  lemma NextIsSpaced(pieces: seq<Piece>)
    requires |pieces| > 1 && WellSpaced(pieces) && pieces[0].Words?
    ensures pieces[1].Mark? && IsTag(pieces[1].tag) && WellSpaced(pieces[2..]) && Plain(pieces[0].text, false)
  {
    assert pieces[1..][0] == pieces[1] && pieces[1..][1..] == pieces[2..];
  }

  lemma TextThenMark(pieces: seq<Piece>)
    requires |pieces| > 1 && pieces[0].Words? && pieces[1].Mark?
    ensures Joined(pieces) == pieces[0].text + pieces[1].tag + Joined(pieces[2..])
    ensures Tokens(pieces) == [pieces[0].text, pieces[1].tag] + Tokens(pieces[2..])
  {
    var t, g, rest := pieces[0].text, pieces[1].tag, pieces[2..];
    MarkFirst(pieces[1..], g, rest);
    Associative(t, g, Joined(rest));
    DropHead("", [g], Tokens(rest));
  }

  lemma MarkFirst(pieces: seq<Piece>, g: string, rest: seq<Piece>)
    requires pieces != [] && pieces[0] == Mark(g) && pieces[1..] == rest
    ensures Joined(pieces) == g + Joined(rest) && Tokens(pieces) == [""] + [g] + Tokens(rest)
  {
    assert ["", g] == [""] + [g];
  }

  lemma DropHead<T>(x: T, a: seq<T>, b: seq<T>)
    ensures ([x] + a + b)[1..] == a + b
  {
  }

  lemma SpacedMark(g: string, k: seq<Piece>)
    requires IsTag(g) && WellSpaced(k)
    ensures WellSpaced([Mark(g)] + k)
  {
    assert ([Mark(g)] + k)[1..] == k;
  }

  lemma StopTag(d: string)
    requires d in STOPS
    ensures IsTag(DirectiveTag(d))
  {
    StopIsInner(d);
    DirectiveTagFacts(d);
  }

  lemma StopTags()
    ensures IsTag(DirectiveTag("else")) && IsTag(DirectiveTag("endif")) && IsTag(DirectiveTag("endfor"))
  {
    StopTag("else");
    StopTag("endif");
    StopTag("endfor");
  }

  lemma {:induction false} EmitSpaced(nodes: seq<Node>, k: seq<Piece>)
    requires WellSpaced(k) && (k == [] || k[0].Mark?) && Settled(nodes, k == [])
    ensures WellSpaced(Emit(nodes, k))
    ensures nodes == [] || !nodes[0].Text? ==> Emit(nodes, k) == [] || Emit(nodes, k)[0].Mark?
    ensures k != [] || nodes != [] ==> Emit(nodes, k) != []
    decreases nodes, 1
  {
    if nodes != [] {
      var rest := Emit(nodes[1..], k);
      EmitSpaced(nodes[1..], k);
      if nodes[0].Text? {
        assert |nodes| > 1 ==> !nodes[1..][0].Text?;
        assert ([Words(nodes[0].text)] + rest)[1..] == rest;
      } else {
        EmitNodeSpaced(nodes[0], rest);
      }
    }
  }

  lemma {:induction false} EmitNodeSpaced(n: Node, k: seq<Piece>)
    requires !n.Text? && WellSpaced(k) && SettledNode(n, k == [])
    ensures WellSpaced(EmitNode(n, k)) && EmitNode(n, k) != [] && EmitNode(n, k)[0].Mark?
    decreases n, 0
  {
    StopTags();
    match n
    case Variable(e) =>
      ExpressionIsInner(e);
      VariableTagFacts(e);
      SpacedMark(VariableTag(e), k);
    case If(c, yes, no) =>
      IfIsInner(c);
      DirectiveTagFacts(IfDirective(c));
      var end := [Mark(DirectiveTag("endif"))] + k;
      SpacedMark(DirectiveTag("endif"), k);
      if no != [] {
        EmitSpaced(no, end);
        SpacedMark(DirectiveTag("else"), Emit(no, end));
      }
      EmitSpaced(yes, EmitElse(no, end));
      SpacedMark(DirectiveTag(IfDirective(c)), Emit(yes, EmitElse(no, end)));
    case For(name, items, body) =>
      ForIsInner(name, items);
      DirectiveTagFacts(ForDirective(name, items));
      var end := [Mark(DirectiveTag("endfor"))] + k;
      SpacedMark(DirectiveTag("endfor"), k);
      EmitSpaced(body, end);
      SpacedMark(DirectiveTag(ForDirective(name, items)), Emit(body, end));
  }

  // ---- Trees up to empty texts ----

  function Tidy(nodes: seq<Node>): seq<Node>
    decreases nodes
  {
    if nodes == [] then [] else TidyNode(nodes[0]) + Tidy(nodes[1..])
  }

  function TidyNode(n: Node): seq<Node>
    decreases n
  {
    match n
    case Text(t) => if t == "" then [] else [n]
    case Variable(_) => [n]
    case If(c, yes, no) => [If(c, Tidy(yes), Tidy(no))]
    case For(name, items, body) => [For(name, items, Tidy(body))]
  }

  lemma {:induction false} TidyConcat(xs: seq<Node>, ys: seq<Node>)
    ensures Tidy(xs + ys) == Tidy(xs) + Tidy(ys)
  {
    if xs == [] {
      assert xs + ys == ys;
    } else {
      assert (xs + ys)[1..] == xs[1..] + ys;
      TidyConcat(xs[1..], ys);
    }
  }

  lemma TidyOne(n: Node)
    ensures Tidy([n]) == TidyNode(n)
  {
    assert [n][1..] == [];
    assert TidyNode(n) + [] == TidyNode(n);
  }

  // ---- Parsing what was lexed ----

  // Reading on from `tokens` gives `nodes` (up to empty texts) and then what `after` gives.
  ghost predicate ReadsAs(tokens: seq<string>, stops: set<string>, nodes: seq<Node>, after: seq<string>) {
    var r, s := Parse(tokens, stops), Parse(after, stops);
    && r.Ok? && s.Ok? && r.value.rest == s.value.rest && r.value.end == s.value.end
    && Tidy(r.value.nodes) == Tidy(nodes) + Tidy(s.value.nodes)
  }

  lemma TextRead(t: string, rest: seq<string>, stops: set<string>)
    requires Plain(t, true)
    ensures Parse([t] + rest, stops) == Prepend([Text(t)], Parse(rest, stops))
  {
    assert ([t] + rest)[1..] == rest;
    if t != "" {
      assert !At(t, 0, "{{") && !At(t, 0, "{%");
    }
  }

  lemma NodeRead(tokens: seq<string>, n: Node, rest: seq<string>, stops: set<string>)
    requires tokens != [] && ParseNext(tokens, stops) == Ok(Found(n, rest)) && Parse(rest, stops).Ok?
    ensures Parse([""] + tokens, stops).Ok?
    ensures var r, s := Parse([""] + tokens, stops).value, Parse(rest, stops).value;
            r.rest == s.rest && r.end == s.end && Tidy(r.nodes) == TidyNode(n) + Tidy(s.nodes)
  {
    TextRead("", tokens, stops);
    var s := Parse(rest, stops).value;
    assert Parse(tokens, stops) == Ok(Parsed([n] + s.nodes, s.rest, s.end));
    TidyConcat([n], s.nodes);
    TidyOne(n);
    TidyConcat([Text("")], [n] + s.nodes);
    TidyOne(Text(""));
  }

  lemma StopRead(directive: string, rest: seq<string>, stops: set<string>)
    requires Inner(directive) && directive in stops
    ensures Parse(["", DirectiveTag(directive)] + rest, stops) == Ok(Parsed([Text("")], rest, directive))
  {
    StopParsed(directive, rest, stops);
    var tokens := [DirectiveTag(directive)] + rest;
    TextRead("", tokens, stops);
    assert ["", DirectiveTag(directive)] + rest == [""] + tokens;
    assert [Text("")] + [] == [Text("")];
  }

  lemma StopParsed(directive: string, rest: seq<string>, stops: set<string>)
    requires Inner(directive) && directive in stops
    ensures Parse([DirectiveTag(directive)] + rest, stops) == Ok(Parsed([], rest, directive))
  {
    DirectiveTagFacts(directive);
    var tokens := [DirectiveTag(directive)] + rest;
    assert tokens[0] == DirectiveTag(directive) && tokens[1..] == rest;
  }

  lemma MarkTokens(g: string, k: seq<Piece>)
    ensures Tokens([Mark(g)] + k) == [""] + ([g] + Tokens(k))
  {
    assert ([Mark(g)] + k)[1..] == k;
    assert ["", g] + Tokens(k) == [""] + ([g] + Tokens(k));
  }

  // A block that ends at the given directive, wherever the pieces go on from there.
  lemma StopAhead(directive: string, k: seq<Piece>, stops: set<string>)
    requires directive in stops && Inner(directive)
    ensures Parse(Tokens([Mark(DirectiveTag(directive))] + k), stops) == Ok(Parsed([Text("")], Tokens(k), directive))
  {
    MarkTokens(DirectiveTag(directive), k);
    StopRead(directive, Tokens(k), stops);
    assert ["", DirectiveTag(directive)] + Tokens(k) == [""] + ([DirectiveTag(directive)] + Tokens(k));
  }

  // A block body read up to its end.
  ghost predicate BodyRead(r: Result<Parsed, string>, body: seq<Node>, rest: seq<string>, end: string) {
    r.Ok? && r.value.rest == rest && r.value.end == end && Tidy(r.value.nodes) == Tidy(body)
  }

  lemma BodyAhead(body: seq<Node>, directive: string, k: seq<Piece>, stops: set<string>, tokens: seq<string>)
    requires directive in stops && Inner(directive)
    requires ReadsAs(tokens, stops, body, Tokens([Mark(DirectiveTag(directive))] + k))
    ensures BodyRead(Parse(tokens, stops), body, Tokens(k), directive)
  {
    StopAhead(directive, k, stops);
    TidyOne(Text(""));
    assert Tidy(body) + [] == Tidy(body);
  }

  // What is written for a list of nodes is read back as those nodes, whatever follows.
  lemma {:induction false} EmitRead(nodes: seq<Node>, k: seq<Piece>, stops: set<string>)
    requires (k == [] || k[0].Mark?) && Settled(nodes, k == []) && stops <= STOPS && Parse(Tokens(k), stops).Ok?
    ensures ReadsAs(Tokens(Emit(nodes, k)), stops, nodes, Tokens(k))
    decreases nodes, 1
  {
    if nodes == [] {
      assert Tidy([]) + Tidy(Parse(Tokens(k), stops).value.nodes) == Tidy(Parse(Tokens(k), stops).value.nodes);
    } else {
      var n, rest := nodes[0], Emit(nodes[1..], k);
      EmitRead(nodes[1..], k, stops);
      EmitHead(nodes[1..], k);
      if n.Text? {
        assert |nodes| > 1 ==> !nodes[1..][0].Text?;
        TextAhead(n.text, rest, stops);
      } else {
        EmitNodeRead(n, rest, stops);
      }
      ReadsOn(n, nodes[1..], Tokens(EmitNode(n, rest)), Tokens(rest), Tokens(k), stops);
      assert [nodes[0]] + nodes[1..] == nodes;
    }
  }

  lemma EmitHead(nodes: seq<Node>, k: seq<Piece>)
    requires k == [] || k[0].Mark?
    ensures nodes == [] || !nodes[0].Text? ==> Emit(nodes, k) == [] || Emit(nodes, k)[0].Mark?
    ensures nodes != [] ==> Emit(nodes, k) != []
  {
  }

  lemma ReadsOn(n: Node, nodes: seq<Node>, tokens: seq<string>, mid: seq<string>, after: seq<string>, stops: set<string>)
    requires ReadsAs(tokens, stops, [n], mid) && ReadsAs(mid, stops, nodes, after)
    ensures ReadsAs(tokens, stops, [n] + nodes, after)
  {
    TidyConcat([n], nodes);
    Associative(Tidy([n]), Tidy(nodes), Tidy(Parse(after, stops).value.nodes));
  }

  lemma TextAhead(t: string, k: seq<Piece>, stops: set<string>)
    requires Plain(t, true) && (k == [] || k[0].Mark?) && Parse(Tokens(k), stops).Ok?
    ensures ReadsAs(Tokens([Words(t)] + k), stops, [Text(t)], Tokens(k))
  {
    var tail := Tokens(k)[1..];
    TokensLead(k);
    assert Tokens(k) == [""] + tail;
    assert ([Words(t)] + k)[1..] == k;
    assert Tokens([Words(t)] + k) == [t] + tail by {
      if k == [] { assert tail == []; }
    }
    TextRead(t, tail, stops);
    TextRead("", tail, stops);
    var s := Parse(tail, stops).value.nodes;
    TidyConcat([Text(t)], s);
    TidyConcat([Text("")], s);
    TidyOne(Text(""));
    assert [] + Tidy(s) == Tidy(s);
  }

  lemma {:induction false} EmitNodeRead(n: Node, k: seq<Piece>, stops: set<string>)
    requires !n.Text? && SettledNode(n, false) && stops <= STOPS && Parse(Tokens(k), stops).Ok?
    ensures ReadsAs(Tokens(EmitNode(n, k)), stops, [n], Tokens(k))
    decreases n, 1
  {
    match n
    case Variable(e) =>
      ExpressionIsInner(e);
      VariableTagFacts(e);
      MarkTokens(VariableTag(e), k);
      var tokens := [VariableTag(e)] + Tokens(k);
      assert tokens[1..] == Tokens(k);
      NodeRead(tokens, n, Tokens(k), stops);
      TidyOne(n);
    case If(c, yes, no) =>
      var body := Emit(yes, EmitElse(no, [Mark(DirectiveTag("endif"))] + k));
      IfBodyRead(n, k);
      IfHeadRead(c, yes, no, Tokens(body), k, stops);
      MarkTokens(DirectiveTag(IfDirective(c)), body);
    case For(name, items, body) =>
      var end := [Mark(DirectiveTag("endfor"))] + k;
      StopIsInner("endfor");
      StopAhead("endfor", k, {"endfor"});
      EmitRead(body, end, {"endfor"});
      BodyAhead(body, "endfor", k, {"endfor"}, Tokens(Emit(body, end)));
      ForHeadRead(name, items, body, Tokens(Emit(body, end)), k, stops);
      MarkTokens(DirectiveTag(ForDirective(name, items)), Emit(body, end));
  }

  // Both branches of an `if`.
  ghost predicate BranchesRead(tokens: seq<string>, yes: seq<Node>, no: seq<Node>, rest: seq<string>) {
    var first := Parse(tokens, {"else", "endif"});
    if no == [] then BodyRead(first, yes, rest, "endif")
    else first.Ok? && BodyRead(first, yes, first.value.rest, "else")
         && BodyRead(Parse(first.value.rest, {"endif"}), no, rest, "endif")
  }

  lemma {:induction false} IfBodyRead(n: Node, k: seq<Piece>)
    requires n.If? && Settled(n.yes, false) && Settled(n.no, false)
    ensures BranchesRead(Tokens(Emit(n.yes, EmitElse(n.no, [Mark(DirectiveTag("endif"))] + k))), n.yes, n.no, Tokens(k))
    decreases n, 0
  {
    var yes, no := n.yes, n.no;
    var end := [Mark(DirectiveTag("endif"))] + k;
    var stops := {"else", "endif"};
    StopIsInner("endif");
    StopIsInner("else");
    if no == [] {
      StopAhead("endif", k, stops);
      EmitRead(yes, end, stops);
      BodyAhead(yes, "endif", k, stops, Tokens(Emit(yes, end)));
    } else {
      StopAhead("endif", k, {"endif"});
      EmitRead(no, end, {"endif"});
      BodyAhead(no, "endif", k, {"endif"}, Tokens(Emit(no, end)));
      StopAhead("else", Emit(no, end), stops);
      EmitRead(yes, EmitElse(no, end), stops);
      BodyAhead(yes, "else", Emit(no, end), stops, Tokens(Emit(yes, EmitElse(no, end))));
    }
  }

  // A directive that ends nothing opens a block.
  lemma BlockOpens(d: string, body: seq<string>, stops: set<string>)
    requires Inner(d) && d !in stops
    ensures ParseNext([DirectiveTag(d)] + body, stops) == ParseBlock(d, body)
  {
    DirectiveTagFacts(d);
    assert ([DirectiveTag(d)] + body)[1..] == body;
  }

  lemma BlockRead(d: string, n: Node, body: seq<string>, k: seq<Piece>, stops: set<string>)
    requires Inner(d) && d !in stops && Parse(Tokens(k), stops).Ok?
    requires ParseBlock(d, body).Ok? && ParseBlock(d, body).value.rest == Tokens(k)
    requires TidyNode(ParseBlock(d, body).value.node) == TidyNode(n)
    ensures ReadsAs([""] + ([DirectiveTag(d)] + body), stops, [n], Tokens(k))
  {
    BlockOpens(d, body, stops);
    NodeRead([DirectiveTag(d)] + body, ParseBlock(d, body).value.node, Tokens(k), stops);
    TidyOne(n);
  }

  lemma IfHeadRead(c: string, yes: seq<Node>, no: seq<Node>, body: seq<string>, k: seq<Piece>, stops: set<string>)
    requires IsPath(c) && stops <= STOPS && BranchesRead(body, yes, no, Tokens(k)) && Parse(Tokens(k), stops).Ok?
    ensures ReadsAs([""] + ([DirectiveTag(IfDirective(c))] + body), stops, [If(c, yes, no)], Tokens(k))
  {
    IfRead(c);
    IfIsInner(c);
    IfBlock(c, yes, no, body, Tokens(k));
    BlockRead(IfDirective(c), If(c, yes, no), body, k, stops);
  }

  lemma IfBlock(c: string, yes: seq<Node>, no: seq<Node>, body: seq<string>, rest: seq<string>)
    requires MatchIf(IfDirective(c)) == Some(c) && BranchesRead(body, yes, no, rest)
    ensures var block := ParseBlock(IfDirective(c), body);
            block.Ok? && block.value.rest == rest && TidyNode(block.value.node) == TidyNode(If(c, yes, no))
  {
  }

  lemma ForHeadRead(name: string, items: string, nodes: seq<Node>, body: seq<string>, k: seq<Piece>, stops: set<string>)
    requires IsName(name) && IsPath(items) && stops <= STOPS && Parse(Tokens(k), stops).Ok?
    requires BodyRead(Parse(body, {"endfor"}), nodes, Tokens(k), "endfor")
    ensures ReadsAs([""] + ([DirectiveTag(ForDirective(name, items))] + body), stops, [For(name, items, nodes)], Tokens(k))
  {
    ForRead(name, items);
    ForIsInner(name, items);
    ForBlock(name, items, nodes, body, Tokens(k));
    BlockRead(ForDirective(name, items), For(name, items, nodes), body, k, stops);
  }

  lemma ForBlock(name: string, items: string, nodes: seq<Node>, body: seq<string>, rest: seq<string>)
    requires MatchFor(ForDirective(name, items)) == Some((name, items)) && MatchIf(ForDirective(name, items)) == None
    requires BodyRead(Parse(body, {"endfor"}), nodes, rest, "endfor")
    ensures var block := ParseBlock(ForDirective(name, items), body);
            block.Ok? && block.value.rest == rest && TidyNode(block.value.node) == TidyNode(For(name, items, nodes))
  {
  }

  // Whatever tree is written out, before anything and in any block, is read back as it is with neighbouring
  // texts joined.
  lemma WrittenRead(nodes: seq<Node>, k: seq<Piece>, stops: set<string>)
    requires Printable(Fuse(nodes), k == []) && WellSpaced(k) && (k == [] || k[0].Mark?)
    requires stops <= STOPS && Parse(Lex(Joined(k)), stops).Ok?
    ensures ReadsAs(Lex(Joined(Emit(nodes, k))), stops, Fuse(nodes), Lex(Joined(k)))
  {
    var fused := Fuse(nodes);
    FuseApart(nodes);
    PrintableApart(fused, k == []);
    EmitSpaced(fused, k);
    LexJoined(Emit(fused, k));
    LexJoined(k);
    FuseWritten(nodes, k, k);
    EmitRead(fused, k, stops);
  }

  // Printing then parsing gives back the tree, up to empty texts and the joining of neighbouring ones.
  lemma PrintThenParse(nodes: seq<Node>)
    requires Printable(Fuse(nodes), true)
    ensures var r := Parse(Lex(Print(nodes)), {});
            r.Ok? && r.value.rest == [] && r.value.end == "" && Tidy(r.value.nodes) == Tidy(Fuse(nodes))
  {
    LexNothing();
    TextRead("", [], {});
    assert [""] + [] == [""];
    WrittenRead(nodes, [], {});
    TidyOne(Text(""));
    assert [Text("")] + [] == [Text("")];
    assert Tidy(Fuse(nodes)) + [] == Tidy(Fuse(nodes));
  }

  // Without neighbouring texts it is the tree itself.
  lemma PrintThenParseApart(nodes: seq<Node>)
    requires Printable(nodes, true) && Apart(nodes)
    ensures var r := Parse(Lex(Print(nodes)), {});
            r.Ok? && r.value.rest == [] && r.value.end == "" && Tidy(r.value.nodes) == Tidy(nodes)
  {
    FuseNothing(nodes);
    PrintThenParse(nodes);
  }
}
