// The parser of the prompt template language (prompts/renderer.py, lines 58-93).
module TemplateParser {
  import opened Prelude
  import opened TemplateLexer

  datatype Node =
    | Text(text: string)
    | Variable(expression: string)
    | If(condition: string, yes: seq<Node>, no: seq<Node>)
    | For(name: string, items: string, body: seq<Node>)

  // ---- Names, paths, expressions, directives ----

  predicate IsLetter(c: char) {
    'a' <= c <= 'z' || 'A' <= c <= 'Z' || c == '_'
  }

  predicate IsWordChar(c: char) {
    IsLetter(c) || '0' <= c <= '9'
  }

  predicate IsPathChar(c: char) {
    IsWordChar(c) || c == '.'
  }

  predicate IsName(s: string) {
    s != "" && IsLetter(s[0]) && forall i :: 0 <= i < |s| ==> IsWordChar(s[i])
  }

  predicate IsPath(s: string) {
    s != "" && IsLetter(s[0]) && forall i :: 0 <= i < |s| ==> IsPathChar(s[i])
  }

  function LeadingWord(s: string): (r: string)
    ensures r <= s && (forall i :: 0 <= i < |r| ==> IsWordChar(r[i])) && (|r| < |s| ==> !IsWordChar(s[|r|]))
  {
    if s == "" || !IsWordChar(s[0]) then "" else [s[0]] + LeadingWord(s[1..])
  }

  function LeadingPath(s: string): (r: string)
    ensures r <= s && (forall i :: 0 <= i < |r| ==> IsPathChar(r[i])) && (|r| < |s| ==> !IsPathChar(s[|r|]))
  {
    if s == "" || !IsPathChar(s[0]) then "" else [s[0]] + LeadingPath(s[1..])
  }

  // A path, optionally `|` and a filter name, with any spaces around the bar.
  predicate IsExpression(e: string) {
    var path := LeadingPath(e);
    var rest := TrimStart(e[|path|..]);
    && IsPath(path)
    && (|path| == |e| || (rest != "" && rest[0] == '|' && TrimStart(rest[1..]) in {"summary_only", "upper"}))
  }

  // What follows a keyword and at least one space.
  function AfterKeyword(d: string, keyword: string): Option<string> {
    if keyword <= d && |TrimStart(d[|keyword|..])| < |d| - |keyword| then Some(TrimStart(d[|keyword|..])) else None
  }

  function MatchIf(d: string): Option<string> {
    var path := AfterKeyword(d, "if");
    if path.Some? && IsPath(path.value) then path else None
  }

  function MatchFor(d: string): Option<(string, string)> {
    var first := AfterKeyword(d, "for");
    if first.None? then None
    else
      var name := LeadingWord(first.value);
      var second := first.value[|name|..];
      var third := AfterKeyword(TrimStart(second), "in");
      if IsName(name) && |TrimStart(second)| < |second| && third.Some? && IsPath(third.value)
      then Some((name, third.value)) else None
  }

  // `token[2:-2].strip()`
  function Inside(token: string): string {
    if |token| < 4 then "" else Strip(token[2..|token| - 2])
  }

  // ---- Parsing ----

  // The nodes up to a stop directive, the tokens after it, and which one it was.
  datatype Parsed = Parsed(nodes: seq<Node>, rest: seq<string>, end: string)

  predicate Mentions(s: string, pair: string)
    requires |pair| == 2
  {
    exists i :: 0 <= i < |s| && At(s, i, pair)
  }

  predicate EndsWith(s: string, pair: string)
    requires |pair| == 2
  {
    |s| >= 2 && At(s, |s| - 2, pair)
  }

  // What one token leads to: the end of the block, or a node and the tokens after it.
  datatype Next = Stop(end: string) | Found(node: Node, rest: seq<string>)

  function ParseNext(tokens: seq<string>, stops: set<string>): (r: Result<Next, string>)
    requires tokens != []
    ensures r.Ok? && r.value.Found? ==> |r.value.rest| < |tokens|
    ensures r.Ok? && r.value.Stop? ==> r.value.end in stops
    decreases |tokens|, 0
  {
    var token, rest := tokens[0], tokens[1..];
    if At(token, 0, "{{") then
      if !EndsWith(token, "}}") then Err("unclosed prompt expression")
      else if !IsExpression(Inside(token)) then Err("unsupported prompt variable expression")
      else Ok(Found(Variable(Inside(token)), rest))
    else if At(token, 0, "{%") then
      if Inside(token) in stops then Ok(Stop(Inside(token))) else ParseBlock(Inside(token), rest)
    else if Mentions(token, "{{") || Mentions(token, "{%") then Err("unclosed prompt expression")
    else Ok(Found(Text(token), rest))
  }

  function Parse(tokens: seq<string>, stops: set<string>): (r: Result<Parsed, string>)
    ensures r.Ok? ==> |r.value.rest| <= |tokens|
    ensures r.Ok? && stops != {} ==> |r.value.rest| < |tokens| && r.value.end in stops
    decreases |tokens|, 1
  {
    if tokens == [] then
      if stops == {} then Ok(Parsed([], [], "")) else Err("unclosed prompt block")
    else
      var next := ParseNext(tokens, stops);
      if next.Err? then Err(next.error)
      else if next.value.Stop? then Ok(Parsed([], tokens[1..], next.value.end))
      else Prepend([next.value.node], Parse(next.value.rest, stops))
  }

  // A block directive and everything it spans.
  function ParseBlock(directive: string, tokens: seq<string>): (r: Result<Next, string>)
    ensures r.Ok? ==> r.value.Found? && |r.value.rest| <= |tokens|
    decreases |tokens|, 2
  {
    if MatchIf(directive).Some? then
      var yes := Parse(tokens, {"else", "endif"});
      if yes.Err? then Err(yes.error)
      else if yes.value.end == "else" then
        var no := Parse(yes.value.rest, {"endif"});
        if no.Err? then Err(no.error)
        else Ok(Found(If(MatchIf(directive).value, yes.value.nodes, no.value.nodes), no.value.rest))
      else Ok(Found(If(MatchIf(directive).value, yes.value.nodes, []), yes.value.rest))
    else if MatchFor(directive).Some? then
      var body := Parse(tokens, {"endfor"});
      if body.Err? then Err(body.error)
      else Ok(Found(For(MatchFor(directive).value.0, MatchFor(directive).value.1, body.value.nodes), body.value.rest))
    else Err("unsupported prompt directive")
  }

  function Prepend(nodes: seq<Node>, r: Result<Parsed, string>): Result<Parsed, string> {
    if r.Err? then r else Ok(r.value.(nodes := nodes + r.value.nodes))
  }

  lemma PrependTwice(xs: seq<Node>, ys: seq<Node>, r: Result<Parsed, string>)
    ensures Prepend(xs, Prepend(ys, r)) == Prepend(xs + ys, r)
  {
    if r.Ok? {
      assert xs + (ys + r.value.nodes) == (xs + ys) + r.value.nodes;
    }
  }

  lemma PrependNothing(r: Result<Parsed, string>)
    ensures Prepend([], r) == r
  {
    if r.Ok? {
      assert [] + r.value.nodes == r.value.nodes;
    }
  }

  // A loop's result is the parse of the tokens from `start`, and where it stopped.
  ghost predicate ParsedFrom(tokens: seq<string>, start: nat, stops: set<string>, r: Result<(seq<Node>, nat, string), string>)
    requires start <= |tokens|
  {
    if r.Err? then Parse(tokens[start..], stops) == Err(r.error)
    else
      && start <= r.value.1 <= |tokens|
      && Parse(tokens[start..], stops) == Ok(Parsed(r.value.0, tokens[r.value.1..], r.value.2))
  }

  // The loop has read `nodes` and is at `index`.
  ghost predicate Reading(tokens: seq<string>, start: nat, index: nat, stops: set<string>, nodes: seq<Node>) {
    start <= index <= |tokens| && Parse(tokens[start..], stops) == Prepend(nodes, Parse(tokens[index..], stops))
  }

  // `parse`: a loop that advances an index and appends to the nodes.
  method ParseFrom(tokens: seq<string>, start: nat, stops: set<string>) returns (r: Result<(seq<Node>, nat, string), string>)
    requires start <= |tokens|
    ensures ParsedFrom(tokens, start, stops, r)
    decreases |tokens| - start, 1
  {
    var nodes := [];
    var index := start;
    PrependNothing(Parse(tokens[start..], stops));
    while index < |tokens|
      invariant Reading(tokens, start, index, stops, nodes)
    {
      var next := ParseToken(tokens, index, stops);
      ParseOn(tokens, start, index, stops, nodes, next);
      if next.Err? {
        return Err(next.error);
      }
      if next.value.0.Some? {
        return Ok((nodes, index + 1, next.value.0.value));
      }
      nodes, index := nodes + next.value.1, next.value.2;
    }
    ParseAll(tokens, start, stops, nodes);
    if stops != {} {
      return Err("unclosed prompt block");
    }
    r := Ok((nodes, index, ""));
  }

  // The tokens have run out.
  lemma ParseAll(tokens: seq<string>, start: nat, stops: set<string>, nodes: seq<Node>)
    requires Reading(tokens, start, |tokens|, stops, nodes)
    ensures ParsedFrom(tokens, start, stops, if stops == {} then Ok((nodes, |tokens|, "")) else Err("unclosed prompt block"))
  {
    assert nodes + [] == nodes;
  }

  // What the loop is told agrees with what the next tokens lead to.
  ghost predicate Tells(r: Result<(Option<string>, seq<Node>, nat), string>, next: Result<Next, string>, tokens: seq<string>, index: nat) {
    if r.Err? then next == Err(r.error)
    else if r.value.0.Some? then next == Ok(Stop(r.value.0.value))
    else index < r.value.2 <= |tokens| && |r.value.1| == 1 && next == Ok(Found(r.value.1[0], tokens[r.value.2..]))
  }

  lemma ParseStep(tokens: seq<string>, index: nat, stops: set<string>)
    requires index < |tokens|
    ensures var next := ParseNext(tokens[index..], stops);
            Parse(tokens[index..], stops)
              == if next.Err? then Err(next.error)
                 else if next.value.Stop? then Ok(Parsed([], tokens[index + 1..], next.value.end))
                 else Prepend([next.value.node], Parse(next.value.rest, stops))
  {
    assert tokens[index..][1..] == tokens[index + 1..];
  }

  // One step of the loop.
  lemma ParseOn(tokens: seq<string>, start: nat, index: nat, stops: set<string>, nodes: seq<Node>,
                r: Result<(Option<string>, seq<Node>, nat), string>)
    requires Reading(tokens, start, index, stops, nodes) && index < |tokens|
    requires Tells(r, ParseNext(tokens[index..], stops), tokens, index)
    ensures r.Err? ==> ParsedFrom(tokens, start, stops, Err(r.error))
    ensures r.Ok? && r.value.0.Some? ==> ParsedFrom(tokens, start, stops, Ok((nodes, index + 1, r.value.0.value)))
    ensures r.Ok? && r.value.0.None? ==> index < r.value.2 && Reading(tokens, start, r.value.2, stops, nodes + r.value.1)
  {
    ParseStep(tokens, index, stops);
    if r.Ok? && r.value.0.Some? {
      assert nodes + [] == nodes;
    } else if r.Ok? {
      assert [r.value.1[0]] == r.value.1;
      PrependTwice(nodes, r.value.1, Parse(tokens[r.value.2..], stops));
    }
  }

  // The body of that loop: a stop directive, or one node and the index after it.
  method ParseToken(tokens: seq<string>, index: nat, stops: set<string>)
    returns (r: Result<(Option<string>, seq<Node>, nat), string>)
    requires index < |tokens|
    ensures Tells(r, ParseNext(tokens[index..], stops), tokens, index)
    decreases |tokens| - index, 0
  {
    var token := tokens[index];
    ghost var next := ParseNext(tokens[index..], stops);
    assert tokens[index..][0] == token && tokens[index..][1..] == tokens[index + 1..];
    if At(token, 0, "{{") {
      if !EndsWith(token, "}}") {
        assert next == Err("unclosed prompt expression");
        return Err("unclosed prompt expression");
      }
      if !IsExpression(Inside(token)) {
        assert next == Err("unsupported prompt variable expression");
        return Err("unsupported prompt variable expression");
      }
      assert next == Ok(Found(Variable(Inside(token)), tokens[index + 1..]));
      return Ok((None, [Variable(Inside(token))], index + 1));
    }
    if At(token, 0, "{%") {
      var directive := Inside(token);
      if directive in stops {
        assert next == Ok(Stop(directive));
        return Ok((Some(directive), [], index + 1));
      }
      assert next == ParseBlock(directive, tokens[index + 1..]);
      var block := ParseBlockFrom(tokens, index + 1, directive);
      return if block.Err? then Err(block.error) else Ok((None, [block.value.0], block.value.1));
    }
    if Mentions(token, "{{") || Mentions(token, "{%") {
      return Err("unclosed prompt expression");
    }
    r := Ok((None, [Text(token)], index + 1));
  }

  // An `if` or a `for`, from the token after its directive.
  method ParseBlockFrom(tokens: seq<string>, start: nat, directive: string) returns (r: Result<(Node, nat), string>)
    requires start <= |tokens|
    ensures r.Ok? ==> start <= r.value.1 <= |tokens|
                      && ParseBlock(directive, tokens[start..]) == Ok(Found(r.value.0, tokens[r.value.1..]))
    ensures r.Err? ==> ParseBlock(directive, tokens[start..]) == Err(r.error)
    decreases |tokens| - start, 2
  {
    var condition, loop := MatchIf(directive), MatchFor(directive);
    if condition.Some? {
      var yes := ParseFrom(tokens, start, {"else", "endif"});
      if yes.Err? {
        return Err(yes.error);
      }
      if yes.value.2 == "else" {
        var no := ParseFrom(tokens, yes.value.1, {"endif"});
        if no.Err? {
          return Err(no.error);
        }
        return Ok((If(condition.value, yes.value.0, no.value.0), no.value.1));
      }
      return Ok((If(condition.value, yes.value.0, []), yes.value.1));
    } else if loop.Some? {
      var body := ParseFrom(tokens, start, {"endfor"});
      if body.Err? {
        return Err(body.error);
      }
      return Ok((For(loop.value.0, loop.value.1, body.value.0), body.value.1));
    }
    r := Err("unsupported prompt directive");
  }
}
