// Rendering a parsed template (prompts/renderer.py, lines 95-134). How a value is turned into escaped text
// under a filter is a parameter.
module TemplateRender {
  import opened Prelude
  import opened TemplateLexer
  import opened TemplateParser
  import opened TemplateRoundTrip

  datatype Value = Null | Flag(flag: bool) | Number(n: int) | Str(text: string) | List(items: seq<Value>) | Dict(fields: Context)

  type Context = map<string, Value>

  function Split(path: string, sep: char): (parts: seq<string>)
    ensures parts != []
  {
    if path == "" then [""]
    else
      var rest := Split(path[1..], sep);
      if path[0] == sep then [""] + rest else [[path[0]] + rest[0]] + rest[1..]
  }

  function Follow(v: Value, parts: seq<string>): Value
    decreases |parts|
  {
    if parts == [] || v.Null? then v
    else Follow(if v.Dict? && parts[0] in v.fields then v.fields[parts[0]] else Null, parts[1..])
  }

  // `_resolve_path`
  function ResolvePath(context: Context, path: string): Value {
    Follow(Dict(context), Split(path, '.'))
  }

  predicate Truthy(v: Value) {
    match v
    case Null => false
    case Flag(b) => b
    case Number(n) => n != 0
    case Str(t) => t != ""
    case List(items) => items != []
    case Dict(fields) => fields != map[]
  }

  // The path and the filter of an expression.
  function Before(e: string): string {
    if e == "" || e[0] == '|' then "" else [e[0]] + Before(e[1..])
  }

  function After(e: string): string {
    if e == "" then "" else if e[0] == '|' then e[1..] else After(e[1..])
  }

  function Render(nodes: seq<Node>, context: Context, show: (Value, string) -> string): string
    decreases nodes, 0
  {
    if nodes == [] then "" else RenderNode(nodes[0], context, show) + Render(nodes[1..], context, show)
  }

  function RenderNode(n: Node, context: Context, show: (Value, string) -> string): string
    decreases n, 1
  {
    match n
    case Text(t) => t
    case Variable(e) => show(ResolvePath(context, Prelude.Strip(Before(e))), Prelude.Strip(After(e)))
    case If(c, yes, no) => if Truthy(ResolvePath(context, c)) then Render(yes, context, show) else Render(no, context, show)
    case For(name, items, body) =>
      var v := ResolvePath(context, items);
      if v.List? then RenderEach(name, v.items, body, context, show) else ""
  }

  function RenderEach(name: string, items: seq<Value>, body: seq<Node>, context: Context, show: (Value, string) -> string): string
    decreases body, 1, |items|
  {
    if items == [] then ""
    else Render(body, context[name := items[0]], show) + RenderEach(name, items[1..], body, context, show)
  }

  lemma {:induction false} RenderConcat(xs: seq<Node>, ys: seq<Node>, context: Context, show: (Value, string) -> string)
    ensures Render(xs + ys, context, show) == Render(xs, context, show) + Render(ys, context, show)
  {
    if xs == [] {
      assert xs + ys == ys;
    } else {
      assert (xs + ys)[1..] == xs[1..] + ys;
      RenderConcat(xs[1..], ys, context, show);
      var a, b, c := RenderNode(xs[0], context, show), Render(xs[1..], context, show), Render(ys, context, show);
      assert a + (b + c) == (a + b) + c;
    }
  }

  // Empty texts show nothing.
  lemma {:induction false} RenderTidy(nodes: seq<Node>, context: Context, show: (Value, string) -> string)
    ensures Render(Tidy(nodes), context, show) == Render(nodes, context, show)
    decreases nodes, 0
  {
    if nodes != [] {
      RenderTidyNode(nodes[0], context, show);
      RenderTidy(nodes[1..], context, show);
      RenderConcat(TidyNode(nodes[0]), Tidy(nodes[1..]), context, show);
    }
  }

  lemma {:induction false} RenderTidyNode(n: Node, context: Context, show: (Value, string) -> string)
    ensures Render(TidyNode(n), context, show) == RenderNode(n, context, show)
    decreases n, 1
  {
    match n
    case Text(t) => if t != "" { RenderOne(n, context, show); }
    case Variable(_) => RenderOne(n, context, show);
    case If(c, yes, no) =>
      RenderTidy(yes, context, show);
      RenderTidy(no, context, show);
      RenderOne(If(c, Tidy(yes), Tidy(no)), context, show);
    case For(name, items, body) =>
      RenderOne(For(name, items, Tidy(body)), context, show);
      var v := ResolvePath(context, items);
      if v.List? {
        RenderTidyEach(name, v.items, body, context, show);
      }
  }

  lemma RenderOne(n: Node, context: Context, show: (Value, string) -> string)
    ensures Render([n], context, show) == RenderNode(n, context, show)
  {
    assert [n][1..] == [];
    assert RenderNode(n, context, show) + "" == RenderNode(n, context, show);
  }

  lemma {:induction false} RenderTidyEach(name: string, items: seq<Value>, body: seq<Node>, context: Context, show: (Value, string) -> string)
    ensures RenderEach(name, items, Tidy(body), context, show) == RenderEach(name, items, body, context, show)
    decreases body, 1, |items|
  {
    if items != [] {
      RenderTidy(body, context[name := items[0]], show);
      RenderTidyEach(name, items[1..], body, context, show);
    }
  }

  // Joining neighbouring texts shows the same.
  lemma {:induction false} RenderFuse(nodes: seq<Node>, context: Context, show: (Value, string) -> string)
    ensures Render(Fuse(nodes), context, show) == Render(nodes, context, show)
    decreases nodes, 0
  {
    if nodes != [] {
      RenderFuseNode(nodes[0], context, show);
      RenderFuse(nodes[1..], context, show);
      RenderJoin(FuseNode(nodes[0]), Fuse(nodes[1..]), context, show);
    }
  }

  lemma RenderJoin(n: Node, nodes: seq<Node>, context: Context, show: (Value, string) -> string)
    ensures Render(Join(n, nodes), context, show) == RenderNode(n, context, show) + Render(nodes, context, show)
  {
    if n.Text? && nodes != [] && nodes[0].Text? {
      var joined := [Text(n.text + nodes[0].text)] + nodes[1..];
      assert joined[1..] == nodes[1..];
      Associative(n.text, nodes[0].text, Render(nodes[1..], context, show));
    } else {
      assert ([n] + nodes)[1..] == nodes;
    }
  }

  lemma {:induction false} RenderFuseNode(n: Node, context: Context, show: (Value, string) -> string)
    ensures RenderNode(FuseNode(n), context, show) == RenderNode(n, context, show)
    decreases n, 1
  {
    match n
    case Text(_) =>
    case Variable(_) =>
    case If(_, yes, no) =>
      RenderFuse(yes, context, show);
      RenderFuse(no, context, show);
    case For(name, items, body) =>
      var v := ResolvePath(context, items);
      if v.List? {
        RenderFuseEach(name, v.items, body, context, show);
      }
  }

  lemma {:induction false} RenderFuseEach(name: string, items: seq<Value>, body: seq<Node>, context: Context, show: (Value, string) -> string)
    ensures RenderEach(name, items, Fuse(body), context, show) == RenderEach(name, items, body, context, show)
    decreases body, 1, |items|
  {
    if items != [] {
      RenderFuse(body, context[name := items[0]], show);
      RenderFuseEach(name, items[1..], body, context, show);
    }
  }

  // A template written out and read back means the same in every context.
  lemma PrintThenRender(nodes: seq<Node>, context: Context, show: (Value, string) -> string)
    requires Printable(Fuse(nodes), true)
    ensures var r := Parse(Lex(Print(nodes)), {});
            r.Ok? && Render(r.value.nodes, context, show) == Render(nodes, context, show)
  {
    PrintThenParse(nodes);
    var parsed := Parse(Lex(Print(nodes)), {}).value.nodes;
    RenderTidy(parsed, context, show);
    RenderTidy(Fuse(nodes), context, show);
    RenderFuse(nodes, context, show);
  }
}
