/** The Yan-to-Python translator (yan-translator.hpp): a class that walks a syntax tree
    and serialises it as Python source text. Its only state is the current block depth
    `indent`, raised around the body of every `if`, `for`, `while` and `def`. The tree is
    this module's own datatype: it holds exactly the fields the translator reads. */
module Translator {
  import opened Common
  import Lexer

  // ---------------------------------------------------------------------------------
  // Syntax tree
  // ---------------------------------------------------------------------------------

  /** An operator token: its kind and, for a keyword, its word. */
  datatype Operator = Operator(kind: Lexer.TokenType, word: string)

  /** A number literal: an int, or a double together with the text `std::format` gives
      it. */
  datatype NumberLit = IntLit(i: int) | FloatLit(text: string)

  datatype Branch = Branch(condition: Node, body: Node)
  datatype Entry = Entry(key: Node, value: Node)
  /** One step of an attribute chain: a name, or a call recorded at that position. */
  datatype Member = AttrName(name: string) | AttrCall(call: Node)

  datatype Node =
    | NumberNode(number: NumberLit)
    | BinaryNode(left: Node, binaryOperator: Operator, right: Node)
    | UnaryNode(unaryOperator: Operator, operand: Node)
    | VarAccess(name: string)
    | VarAssign(name: string, value: Node)
    | IfNode(first: Branch, elifs: seq<Branch>, elseCase: Option<Node>)
    | ForIn(variable: string, rangeExpr: Node, body: Node)
    | ForRange(variable: string, startValue: Node, endValue: Node, stepValue: Option<Node>, body: Node)
    | WhileNode(condition: Node, body: Node)
    | FunctionDef(funcName: Option<string>, parameters: seq<string>, body: Node)
    | CallNode(target: Node, arguments: seq<Node>)
    | StringNode(s: string)
    | ListNode(isStatements: bool, elements: seq<Node>)
    | ReturnNode(returned: Option<Node>)
    | ContinueNode
    | BreakNode
    | SubscriptionNode(target: Node, index: Node, subIndexes: seq<Node>, assignment: Option<Node>)
    | DictionaryNode(entries: seq<Entry>)
    | AttributionNode(target: Node, firstMember: Member, subAttrs: seq<Member>, assignment: Option<Node>)
    | AdvancedAccess(parts: seq<Node>)
    | NewNode(newExpr: Node)
    | AttributionCall(call: Node)
    | Nonlocal(freeVar: string)
    | DeferNode(deferExpr: Node)

  /** The translator stops with `assert(false)` on an operator it has no Python text
      for; the model reports that as this error. */
  datatype Unsupported = Unsupported

  type Text = Result<string, Unsupported>

  /** `pre` and `post` around a successful text. */
  function Around(pre: string, r: Text, post: string): Text {
    match r
    case Ok(s) => Ok(pre + s + post)
    case Err(e) => Err(e)
  }

  /** `pre` before a successful text. */
  function Then(pre: string, r: Text): Text {
    match r
    case Ok(s) => Ok(pre + s)
    case Err(e) => Err(e)
  }

  lemma ThenThen(a: string, b: string, r: Text)
    ensures Then(a, Then(b, r)) == Then(a + b, r)
  {
    if r.Ok? {
      assert a + (b + r.value) == (a + b) + r.value;
    }
  }

  lemma AroundThen(a: string, b: string, r: Text, c: string)
    ensures Around(a, Then(b, r), c) == Around(a + b, r, c)
  {
    if r.Ok? {
      assert a + (b + r.value) + c == (a + b) + r.value + c;
    }
  }

  lemma AroundEmpty(a: string, c: string)
    ensures Around(a, Ok(""), c) == Ok(a + c)
  {
    assert a + "" + c == a + c;
  }

  lemma ConcatAssoc(a: string, b: string, c: string)
    ensures a + (b + c) == (a + b) + c
  {
  }

  lemma ThenEmpty(r: Text)
    ensures Then("", r) == r
  {
    if r.Ok? {
      assert "" + r.value == r.value;
    }
  }

  /** The text of `a` followed by the text of `b`. */
  function Followed(a: Text, b: Text): Text {
    var x :- a;
    Then(x, b)
  }

  lemma FollowedThen(t: string, a: Text, b: Text)
    ensures Followed(Then(t, a), b) == Then(t, Followed(a, b))
  {
    if a.Ok? && b.Ok? {
      assert (t + a.value) + b.value == t + (a.value + b.value);
    }
  }

  // ---------------------------------------------------------------------------------
  // Leaf texts
  // ---------------------------------------------------------------------------------

  /** `TAB`: four spaces per block level. */
  const Tab := "    "

  /** `GetIndent(n)`: `n` tabs; nothing for `n <= 0`. */
  function Indent(n: int): string
    decreases n
  {
    if n <= 0 then "" else Indent(n - 1) + Tab
  }

  /** An indent is four spaces per level and nothing else. */
  lemma {:induction false} IndentShape(n: int)
    ensures |Indent(n)| == 4 * (if n < 0 then 0 else n)
    ensures forall k :: 0 <= k < |Indent(n)| ==> Indent(n)[k] == ' '
    decreases n
  {
    if n > 0 {
      IndentShape(n - 1);
    }
  }

  /** The Python text of a binary operator: `^` becomes `**`, the keywords `and` and `or`
      stay words, and any other operator stops the translator. */
  function BinaryOperatorText(op: Operator): (r: Text)
    ensures r.Ok? <==> op.kind in {Lexer.Plus, Lexer.Minus, Lexer.Mul, Lexer.Div, Lexer.Pow,
                                   Lexer.Equal, Lexer.NotEqual, Lexer.Gt, Lexer.Lt, Lexer.Gte, Lexer.Lte}
                       || (op.kind == Lexer.Keyword && op.word in {"and", "or"})
    ensures op.kind == Lexer.Pow ==> r == Ok("**")
    ensures op.kind == Lexer.Keyword && r.Ok? ==> r.value == op.word
  {
    match op.kind
    case Plus => Ok("+")
    case Minus => Ok("-")
    case Mul => Ok("*")
    case Div => Ok("/")
    case Pow => Ok("**")
    case Equal => Ok("==")
    case NotEqual => Ok("!=")
    case Gt => Ok(">")
    case Lt => Ok("<")
    case Gte => Ok(">=")
    case Lte => Ok("<=")
    case Keyword => if op.word == "and" then Ok("and") else if op.word == "or" then Ok("or") else Err(Unsupported)
    case _ => Err(Unsupported)
  }

  /** The prefix of a unary operator AS WRITTEN (yan-translator.hpp:114-131): `+`, and
      `not ` for any keyword. `-` has no entry, so `-x` stops the translator. */
  function UnaryPrefixAsWritten(op: Operator): Text {
    match op.kind
    case Plus => Ok("+")
    case Keyword => Ok("not ")
    case _ => Err(Unsupported)
  }

  /** The prefix of a unary operator with the entry for `-` restored. */
  function UnaryPrefix(op: Operator): (r: Text)
    ensures r.Ok? <==> op.kind in {Lexer.Plus, Lexer.Minus, Lexer.Keyword}
    ensures op.kind == Lexer.Keyword ==> r == Ok("not ")
  {
    match op.kind
    case Minus => Ok("-")
    case _ => UnaryPrefixAsWritten(op)
  }

  /** The parser makes `-x` a unary node; as written the translator cannot emit it. */
  lemma NegationUnsupportedAsWritten()
    ensures UnaryPrefixAsWritten(Operator(Lexer.Minus, "")) == Err(Unsupported)
    ensures UnaryPrefix(Operator(Lexer.Minus, "")) == Ok("-")
  {
  }

  /** The corrected table agrees with the written one wherever the written one has an
      entry. */
  lemma UnaryPrefixExtends(op: Operator)
    ensures UnaryPrefixAsWritten(op).Ok? ==> UnaryPrefix(op) == UnaryPrefixAsWritten(op)
  {
  }

  /** A parameter named `_x_` is the variadic one and becomes `*x`. For a parameter
      named `_` the source's `substr(1, size - 2)` yields the empty name. */
  function ParameterText(p: string): string {
    if StartsWith(p, "_") && EndsWith(p, "_") then "*" + (if |p| >= 2 then p[1..|p| - 1] else "")
    else p
  }

  lemma ParameterVariadic(x: string)
    ensures ParameterText("_" + x + "_") == "*" + x
  {
    var p := "_" + x + "_";
    assert StartsWith(p, "_") by { assert p[..1] == "_"; }
    assert EndsWith(p, "_") by { assert p[|p| - 1..] == "_"; }
    assert p[1..|p| - 1] == x;
  }

  lemma ParameterPlain(p: string)
    requires p != [] && p[0] != '_'
    ensures ParameterText(p) == p
  {
    assert p[..1] != "_" by { assert p[..1][0] == p[0]; }
  }

  function Parameters(ps: seq<string>): (r: seq<string>)
    ensures |r| == |ps| && forall k :: 0 <= k < |ps| ==> r[k] == ParameterText(ps[k])
  {
    if ps == [] then [] else [ParameterText(ps[0])] + Parameters(ps[1..])
  }

  /** The parameter list of a dictionary-literal lambda AS WRITTEN
      (yan-translator.hpp:338-345): no separator between parameters. */
  function LambdaParametersAsWritten(ps: seq<string>): string {
    if ps == [] then "" else ParameterText(ps[0]) + LambdaParametersAsWritten(ps[1..])
  }

  /** The parameter list of a lambda, comma-separated as in a `def`. */
  function LambdaParameters(ps: seq<string>): string {
    Join(Parameters(ps), ", ")
  }

  /** `{ f: fn (a, b) -> … }` runs the parameters together as written. */
  lemma LambdaParametersRunTogether()
    ensures LambdaParametersAsWritten(["a", "b"]) == "ab"
    ensures LambdaParameters(["a", "b"]) == "a, b"
  {
    ParameterPlain("a");
    ParameterPlain("b");
    assert Parameters(["a", "b"]) == ["a", "b"];
    assert ["a", "b"][1..] == ["b"];
  }

  /** With at most one parameter the two agree. */
  lemma LambdaParametersAgreeOnOne(ps: seq<string>)
    requires |ps| <= 1
    ensures LambdaParametersAsWritten(ps) == LambdaParameters(ps)
  {
    if |ps| == 1 {
      assert ps[1..] == [];
      assert ParameterText(ps[0]) + "" == ParameterText(ps[0]);
    }
  }

  function FunctionName(name: Option<string>): string {
    match name
    case None => "__yan_anonymous_func__"
    case Some(n) => n
  }

  function NumberText(n: NumberLit): string {
    match n
    case IntLit(i) => Decimal(i)
    case FloatLit(t) => t
  }

  /** Prefix of the support-layer functions that stand for builtins. */
  const BuiltinPrefix := "yan_builtin_impl_"

  /** `builtinNames` (yan-lang.hpp:3979-3985). */
  predicate IsBuiltinName(t: string) {
    || t == "print" || t == "println" || t == "typeof" || t == "readLine" || t == "len"
    || t == "parseInt" || t == "parseFloat" || t == "str" || t == "eval" || t == "sin"
    || t == "cos" || t == "tan" || t == "abs" || t == "log" || t == "ln" || t == "sqrt"
    || t == "isFloating" || t == "isInteger" || t == "input" || t == "import" || t == "set"
    || t == "require" || t == "readFile" || t == "writeFile" || t == "append" || t == "concat"
    || t == "remove" || t == "builtins" || t == "panic" || t == "del" || t == "range"
    || t == "addressOf"
  }

  /** The callable a dictionary literal becomes AS WRITTEN (yan-translator.hpp:332). */
  const DictionaryConstructorAsWritten := "__yan_dict_impl"
  /** The dictionary class the support layer defines. */
  const DictionaryConstructor := "yan_dict_impl"

  // ---------------------------------------------------------------------------------
  // The translation, as functions of the tree and the block depth
  // ---------------------------------------------------------------------------------

  /** The Python text of `n` at block depth `d`. Each compound kind has its own function
      below, one per `Visit*` method. Unary `-`, the lambda parameter separator, the
      dictionary constructor's name and the string representation are the corrected ones;
      the `...AsWritten` members record what the source writes instead. */
  function Render(n: Node, d: nat): Text
    decreases n, 1
  {
    match n
    case NumberNode(v) => Ok(NumberText(v))
    case BinaryNode(_, _, _) => BinaryText(n, d)
    case UnaryNode(_, _) => UnaryText(n, d)
    case VarAccess(name) => Ok(name)
    case VarAssign(name, v) => Then(name + " = ", Render(v, d))
    case IfNode(_, _, _) => IfText(n, d)
    case ForIn(_, _, _) => ForInText(n, d)
    case ForRange(_, _, _, _, _) => ForRangeText(n, d)
    case WhileNode(_, _) => WhileText(n, d)
    case FunctionDef(name, ps, body) =>
      Then("def " + FunctionName(name) + "(" + Join(Parameters(ps), ", ") + "):\n", Render(body, d + 1))
    case CallNode(_, _) => CallText(n, d)
    case StringNode(s) => Ok(Lexer.Representation(s))
    case ListNode(_, _) => ListText(n, d)
    case ReturnNode(v) =>
      (match v
       case None => Ok("return")
       case Some(x) => Then("return ", Render(x, d)))
    case ContinueNode => Ok("continue")
    case BreakNode => Ok("break")
    case SubscriptionNode(_, _, _, _) => SubscriptionText(n, d)
    case DictionaryNode(es) => Around(DictionaryConstructor + "({ ", Entries(es, d), " })")
    case AttributionNode(_, _, _, _) => AttributionText(n, d)
    case AdvancedAccess(parts) => Concatenated(parts, d)
    case NewNode(_) => NewText(n, d)
    case AttributionCall(c) => Render(c, d)
    case Nonlocal(v) => Ok("nonlocal " + v)
    case DeferNode(x) => Around("__yan_keyword_impl_defer('", Render(x, d), "')")
  }

  /** `L op R`. */
  function BinaryText(n: Node, d: nat): Text
    requires n.BinaryNode?
    decreases n, 0
  {
    var o :- BinaryOperatorText(n.binaryOperator);
    var ls :- Render(n.left, d);
    var rs :- Render(n.right, d);
    Ok(ls + " " + o + " " + rs)
  }

  function UnaryText(n: Node, d: nat): Text
    requires n.UnaryNode?
    decreases n, 0
  {
    var o :- UnaryPrefix(n.unaryOperator);
    Then(o, Render(n.operand, d))
  }

  /** The `if` line and its body one level deeper, then the `elif`s and the `else`. */
  function IfText(n: Node, d: nat): Text
    requires n.IfNode?
    decreases n, 0
  {
    var c :- Render(n.first.condition, d + 1);
    var b :- Render(n.first.body, d + 1);
    Then("if " + c + ":\n" + b, Followed(Elifs(n.elifs, d), ElseText(n.elseCase, d)))
  }

  function ForInText(n: Node, d: nat): Text
    requires n.ForIn?
    decreases n, 0
  {
    var rs :- Render(n.rangeExpr, d + 1);
    Then("for " + n.variable + " in " + rs + ":\n", Render(n.body, d + 1))
  }

  function ForRangeText(n: Node, d: nat): Text
    requires n.ForRange?
    decreases n, 0
  {
    var ss :- Render(n.startValue, d + 1);
    var es :- Render(n.endValue, d + 1);
    var steps :- StepText(n.stepValue, d + 1);
    Then("for " + n.variable + " in range(" + ss + ", " + es + steps + "):\n", Render(n.body, d + 1))
  }

  function WhileText(n: Node, d: nat): Text
    requires n.WhileNode?
    decreases n, 0
  {
    var cs :- Render(n.condition, d + 1);
    Then("while " + cs + ":\n", Render(n.body, d + 1))
  }

  /** A call: the builtin prefix when the target's text names a builtin. */
  function CallText(n: Node, d: nat): Text
    requires n.CallNode?
    decreases n, 0
  {
    var t :- Render(n.target, d);
    Around((if IsBuiltinName(t) then BuiltinPrefix else "") + t + "(", Listed(n.arguments, d), ")")
  }

  function ListText(n: Node, d: nat): Text
    requires n.ListNode?
    decreases n, 0
  {
    if n.isStatements then Lines(n.elements, d)
    else if n.elements == [] then Ok("[]")
    else Around("[", Listed(n.elements, d), "]")
  }

  function SubscriptionText(n: Node, d: nat): Text
    requires n.SubscriptionNode?
    decreases n, 0
  {
    var ts :- Render(n.target, d);
    var ix :- Render(n.index, d);
    Then(ts + "[" + ix + "]", Followed(Brackets(n.subIndexes, d), AssignmentText(n.assignment, d)))
  }

  function AttributionText(n: Node, d: nat): Text
    requires n.AttributionNode?
    decreases n, 0
  {
    var ts :- Render(n.target, d);
    var f :- MemberText(n.firstMember, d);
    Then(ts + "." + f, Followed(Members(n.subAttrs, d), AssignmentText(n.assignment, d)))
  }

  function NewText(n: Node, d: nat): Text
    requires n.NewNode?
    decreases n, 0
  {
    var xs :- Render(n.newExpr, d);
    Ok(if n.newExpr.CallNode? then xs else xs + "()")
  }

  /** Nodes separated by `", "`. */
  function Listed(ns: seq<Node>, d: nat): Text
    decreases ns, 0
  {
    if ns == [] then Ok("")
    else if |ns| == 1 then Render(ns[0], d)
    else
      var t :- Render(ns[0], d);
      Then(t + ", ", Listed(ns[1..], d))
  }

  /** A statement list: each item on its own line behind the block's indent. */
  function Lines(ns: seq<Node>, d: nat): Text
    decreases ns, 0
  {
    if ns == [] then Ok("")
    else
      var t :- Render(ns[0], d);
      Then(Indent(d) + t + "\n", Lines(ns[1..], d))
  }

  /** An `elif` line of an `if` at depth `d`, and its body one level deeper. */
  function ElifText(b: Branch, d: nat): Text
    decreases b, 0
  {
    var c :- Render(b.condition, d + 1);
    Then(Indent(d) + "elif " + c + ":\n", Render(b.body, d + 1))
  }

  function Elifs(bs: seq<Branch>, d: nat): Text
    decreases bs, 0
  {
    if bs == [] then Ok("")
    else
      var t :- ElifText(bs[0], d);
      Then(t, Elifs(bs[1..], d))
  }

  function ElseText(e: Option<Node>, d: nat): Text
    decreases e, 0
  {
    match e
    case None => Ok("")
    case Some(x) => Then(Indent(d) + "else:\n", Render(x, d + 1))
  }

  function StepText(step: Option<Node>, d: nat): Text
    decreases step, 0
  {
    match step
    case None => Ok("")
    case Some(x) => Then(", ", Render(x, d))
  }

  function Brackets(ns: seq<Node>, d: nat): Text
    decreases ns, 0
  {
    if ns == [] then Ok("")
    else
      var t :- Render(ns[0], d);
      Then("[" + t + "]", Brackets(ns[1..], d))
  }

  function AssignmentText(a: Option<Node>, d: nat): Text
    decreases a, 0
  {
    match a
    case None => Ok("")
    case Some(x) => Then(" = ", Render(x, d))
  }

  function MemberText(m: Member, d: nat): Text
    decreases m, 0
  {
    match m
    case AttrName(name) => Ok(name)
    case AttrCall(c) => Render(c, d)
  }

  function Members(ms: seq<Member>, d: nat): Text
    decreases ms, 0
  {
    if ms == [] then Ok("")
    else
      var t :- MemberText(ms[0], d);
      Then("." + t, Members(ms[1..], d))
  }

  function Concatenated(ns: seq<Node>, d: nat): Text
    decreases ns, 0
  {
    if ns == [] then Ok("")
    else
      var t :- Render(ns[0], d);
      Then(t, Concatenated(ns[1..], d))
  }

  /** One dictionary entry: a function value becomes a lambda. */
  function EntryText(e: Entry, d: nat): Text
    decreases e, 0
  {
    var k :- Render(e.key, d);
    if e.value.FunctionDef? then
      Then(k + ": lambda " + LambdaParameters(e.value.parameters) + ": ", Render(e.value.body, d))
    else
      Then(k + ": ", Render(e.value, d))
  }

  function Entries(es: seq<Entry>, d: nat): Text
    decreases es, 0
  {
    if es == [] then Ok("")
    else if |es| == 1 then EntryText(es[0], d)
    else
      var t :- EntryText(es[0], d);
      Then(t + ", ", Entries(es[1..], d))
  }

  // ---------------------------------------------------------------------------------
  // Unfolding lemmas
  // ---------------------------------------------------------------------------------

  /** A header followed by one indented line. */
  lemma LineAfterHeader(header: string, pad: string, line: string)
    ensures header + (pad + line + "\n") == header + pad + line + "\n"
  {
  }

  /** The entry text as `VisitEntry` assembles it, lambda first. */
  lemma LambdaEntryText(k: string, params: string, body: string)
    ensures k + ": " + ("lambda " + params + ": " + body) == k + ": lambda " + params + ": " + body
  {
  }

  /** One step of a comma-separated list: the item, then a comma unless it is the last. */
  lemma ListedStep(ns: seq<Node>, i: nat, d: nat)
    requires i < |ns|
    ensures Listed(ns[i..], d) ==
              match Render(ns[i], d)
              case Err(e) => Err(e)
              case Ok(t) => Then(t + (if i + 1 < |ns| then ", " else ""), Listed(ns[i + 1..], d))
  {
    var s := ns[i..];
    assert s[0] == ns[i] && s[1..] == ns[i + 1..];
    if |s| == 1 {
      match Render(ns[i], d)
      case Err(_) =>
      case Ok(t) => assert t + "" + "" == t;
    }
  }

  lemma EntriesStep(es: seq<Entry>, i: nat, d: nat)
    requires i < |es|
    ensures Entries(es[i..], d) ==
              match EntryText(es[i], d)
              case Err(e) => Err(e)
              case Ok(t) => Then(t + (if i + 1 < |es| then ", " else ""), Entries(es[i + 1..], d))
  {
    var s := es[i..];
    assert s[0] == es[i] && s[1..] == es[i + 1..];
    if |s| == 1 {
      match EntryText(es[i], d)
      case Err(_) =>
      case Ok(t) => assert t + "" + "" == t;
    }
  }

  /** One step of a joined list of strings. */
  lemma JoinStep(xs: seq<string>, i: nat, sep: string)
    requires i < |xs|
    ensures Join(xs[i..], sep) == xs[i] + (if i + 1 < |xs| then sep else "") + Join(xs[i + 1..], sep)
  {
    var s := xs[i..];
    assert s[0] == xs[i] && s[1..] == xs[i + 1..];
    if |s| == 1 {
      assert xs[i] + "" + "" == xs[i];
    } else {
      assert s[0] + sep + Join(s[1..], sep) == xs[i] + sep + Join(xs[i + 1..], sep);
    }
  }

  lemma BracketsStep(ns: seq<Node>, i: nat, d: nat, tail: Text)
    requires i < |ns|
    ensures Followed(Brackets(ns[i..], d), tail) ==
              match Render(ns[i], d)
              case Err(e) => Err(e)
              case Ok(t) => Then("[" + t + "]", Followed(Brackets(ns[i + 1..], d), tail))
  {
    assert ns[i..][0] == ns[i] && ns[i..][1..] == ns[i + 1..];
    match Render(ns[i], d)
    case Err(_) =>
    case Ok(t) => FollowedThen("[" + t + "]", Brackets(ns[i + 1..], d), tail);
  }

  lemma MembersStep(ms: seq<Member>, i: nat, d: nat, tail: Text)
    requires i < |ms|
    ensures Followed(Members(ms[i..], d), tail) ==
              match MemberText(ms[i], d)
              case Err(e) => Err(e)
              case Ok(t) => Then("." + t, Followed(Members(ms[i + 1..], d), tail))
  {
    assert ms[i..][0] == ms[i] && ms[i..][1..] == ms[i + 1..];
    match MemberText(ms[i], d)
    case Err(_) =>
    case Ok(t) => FollowedThen("." + t, Members(ms[i + 1..], d), tail);
  }

  /** One `elif` of an `if` at depth `d`: its line behind the `if`'s indent, then its
      body. */
  lemma ElifsStep(bs: seq<Branch>, i: nat, d: nat, tail: Text, result: string, cs: string, xs: string)
    requires i < |bs|
    requires Render(bs[i].condition, d + 1) == Ok(cs) && Render(bs[i].body, d + 1) == Ok(xs)
    ensures Then(result, Followed(Elifs(bs[i..], d), tail)) ==
              Then(result + Indent(d) + "elif " + cs + ":\n" + xs, Followed(Elifs(bs[i + 1..], d), tail))
  {
    var t := Indent(d) + "elif " + cs + ":\n" + xs;
    assert bs[i..][0] == bs[i] && bs[i..][1..] == bs[i + 1..];
    assert ElifText(bs[i], d) == Ok(t);
    FollowedThen(t, Elifs(bs[i + 1..], d), tail);
    ThenThen(result, t, Followed(Elifs(bs[i + 1..], d), tail));
    assert result + Indent(d) + "elif " + cs + ":\n" + xs == result + t;
  }

  /** An `elif` whose condition or body stops the translator stops the whole `if`. */
  lemma ElifsFail(bs: seq<Branch>, i: nat, d: nat, tail: Text, result: string)
    requires i < |bs|
    requires Render(bs[i].condition, d + 1).Err? ||
             (Render(bs[i].condition, d + 1).Ok? && Render(bs[i].body, d + 1).Err?)
    ensures Then(result, Followed(Elifs(bs[i..], d), tail)) ==
              if Render(bs[i].condition, d + 1).Err? then Err(Render(bs[i].condition, d + 1).error)
              else Err(Render(bs[i].body, d + 1).error)
  {
    assert bs[i..][0] == bs[i];
  }

  /** After the last `elif`: the `else` line behind the `if`'s indent and its body. */
  lemma IfTail(result: string, elseCase: Option<Node>, d: nat)
    ensures Then(result, Followed(Elifs([], d), ElseText(elseCase, d))) ==
              match elseCase
              case None => Ok(result)
              case Some(x) =>
                (match Render(x, d + 1)
                 case Err(e) => Err(e)
                 case Ok(v) => Ok(result + Indent(d) + "else:\n" + v))
  {
    ThenEmpty(ElseText(elseCase, d));
    match elseCase
    case None => assert result + "" == result;
    case Some(x) =>
      match Render(x, d + 1)
      case Err(_) =>
      case Ok(v) => assert result + (Indent(d) + "else:\n" + v) == result + Indent(d) + "else:\n" + v;
  }

  /** The end of a subscription or attribution chain: the assignment, if any. */
  lemma AssignmentStep(result: string, a: Option<Node>, d: nat)
    ensures Then(result, Followed(Ok(""), AssignmentText(a, d))) ==
              match a
              case None => Ok(result)
              case Some(x) =>
                (match Render(x, d)
                 case Err(e) => Err(e)
                 case Ok(v) => Ok(result + " = " + v))
  {
    ThenEmpty(AssignmentText(a, d));
    match a
    case None => assert result + "" == result;
    case Some(x) =>
      match Render(x, d)
      case Err(_) =>
      case Ok(v) => assert result + (" = " + v) == result + " = " + v;
  }

  // ---------------------------------------------------------------------------------
  // Properties of the translation
  // ---------------------------------------------------------------------------------

  /** A comma-separated list renders when every item does, as the items' texts joined
      with `", "`. */
  lemma {:induction false} ListedJoin(ns: seq<Node>, parts: seq<string>, d: nat)
    requires |parts| == |ns| && forall k :: 0 <= k < |ns| ==> Render(ns[k], d) == Ok(parts[k])
    ensures Listed(ns, d) == Ok(Join(parts, ", "))
    decreases |ns|
  {
    if |ns| > 1 {
      assert forall k :: 0 <= k < |ns| - 1 ==> ns[1..][k] == ns[k + 1] && parts[1..][k] == parts[k + 1];
      ListedJoin(ns[1..], parts[1..], d);
      assert Render(ns[0], d) == Ok(parts[0]);
    }
  }

  /** A list stops the translator exactly when one of its items does. */
  lemma {:induction false} ListedOk(ns: seq<Node>, d: nat)
    ensures Listed(ns, d).Ok? <==> forall k :: 0 <= k < |ns| ==> Render(ns[k], d).Ok?
    decreases |ns|
  {
    if |ns| > 1 {
      ListedOk(ns[1..], d);
      assert forall k :: 0 <= k < |ns| - 1 ==> ns[1..][k] == ns[k + 1];
    }
  }

  /** Statement lists concatenate: the lines of `a + b` are the lines of `a`, then those
      of `b`. */
  lemma {:induction false} LinesAppend(a: seq<Node>, b: seq<Node>, d: nat)
    ensures Lines(a + b, d) == Followed(Lines(a, d), Lines(b, d))
    decreases |a|
  {
    if a == [] {
      assert a + b == b;
      ThenEmpty(Lines(b, d));
    } else {
      assert (a + b)[0] == a[0] && (a + b)[1..] == a[1..] + b;
      LinesAppend(a[1..], b, d);
      match Render(a[0], d)
      case Err(_) =>
      case Ok(t) => FollowedThen(Indent(d) + t + "\n", Lines(a[1..], d), Lines(b, d));
    }
  }

  /** A one-statement list is that statement on one line behind the block's indent. */
  lemma LinesSingle(x: Node, d: nat)
    ensures Lines([x], d) == Around(Indent(d), Render(x, d), "\n")
  {
    assert [x][1..] == [];
    match Render(x, d)
    case Err(_) =>
    case Ok(t) => assert Indent(d) + t + "\n" + "" == Indent(d) + t + "\n";
  }

  /** The body of a `while` is one level deeper than the loop. */
  lemma WhileBodyIndented(c: Node, x: Node, d: nat, cs: string, xs: string)
    requires Render(c, d + 1) == Ok(cs) && Render(x, d + 1) == Ok(xs)
    ensures Render(WhileNode(c, ListNode(true, [x])), d) == Ok("while " + cs + ":\n" + Indent(d + 1) + xs + "\n")
  {
    var w := WhileNode(c, ListNode(true, [x]));
    LinesSingle(x, d + 1);
    assert Render(ListNode(true, [x]), d + 1) == Lines([x], d + 1);
    assert Render(w, d) == WhileText(w, d);
    LineAfterHeader("while " + cs + ":\n", Indent(d + 1), xs);
  }

  /** A call of a builtin by name gets the support-layer prefix; its arguments are joined
      with `", "`. */
  lemma CallRendering(name: string, args: seq<Node>, parts: seq<string>, d: nat)
    requires |parts| == |args| && forall k :: 0 <= k < |args| ==> Render(args[k], d) == Ok(parts[k])
    ensures Render(CallNode(VarAccess(name), args), d) ==
              Ok((if IsBuiltinName(name) then BuiltinPrefix else "") + name + "(" + Join(parts, ", ") + ")")
  {
    assert Render(VarAccess(name), d) == Ok(name);
    ListedJoin(args, parts, d);
  }

  /** A non-statement list is `[]` when empty and its items in brackets otherwise. */
  lemma ListRendering(elems: seq<Node>, parts: seq<string>, d: nat)
    requires |parts| == |elems| && forall k :: 0 <= k < |elems| ==> Render(elems[k], d) == Ok(parts[k])
    ensures Render(ListNode(false, elems), d) == Ok("[" + Join(parts, ", ") + "]")
  {
    if elems != [] {
      ListedJoin(elems, parts, d);
    } else {
      assert "[" + "" + "]" == "[]";
    }
  }

  /** `a ^ b` is translated to `a ** b`. */
  lemma PowerRendering(l: Node, r: Node, w: string, ls: string, rs: string, d: nat)
    requires Render(l, d) == Ok(ls) && Render(r, d) == Ok(rs)
    ensures Render(BinaryNode(l, Operator(Lexer.Pow, w), r), d) == Ok(ls + " ** " + rs)
  {
    assert ls + " " + "**" + " " + rs == ls + " ** " + rs;
  }

  /** `new` leaves a call as it is and calls anything else with no arguments. */
  lemma NewRendering(x: Node, d: nat)
    ensures x.CallNode? ==> Render(NewNode(x), d) == Render(x, d)
    ensures !x.CallNode? ==> Render(NewNode(x), d) == Around("", Render(x, d), "()")
  {
    if Render(x, d).Ok? {
      assert "" + Render(x, d).value + "()" == Render(x, d).value + "()";
    }
  }

  /** The corrected translation writes a string literal with the representation that
      escapes the backslash, which the lexer reads back as the same string. */
  lemma StringRoundTrip(s: string, d: nat)
    ensures Render(StringNode(s), d).Ok?
    ensures var t := Render(StringNode(s), d).value;
            Lexer.Lex(t, 0) == Ok([Lexer.Token(Lexer.String, Lexer.Text(s), Lexer.PosAt(t, 0)),
                                   Lexer.Token(Lexer.Eof, Lexer.NoValue, Lexer.PosAt(t, |t|))])
  {
    Lexer.LexRepresentation(s);
  }

  /** `VisitString` as written (yan-translator.hpp:267-272) uses `String::Representation`
      as written: the two characters `\` `n` come out as `'\n'`, which reads back as a
      newline, so its text differs from the corrected rendering, which reads back as the
      same two characters. */
  lemma StringRenderingAsWrittenMisreads(d: nat)
    ensures var t := Lexer.RepresentationAsWritten("\\n");
            Lexer.Lex(t, 0).Ok? && Lexer.Lex(t, 0).value[0].value == Lexer.Text("\n")
    ensures Render(StringNode("\\n"), d) != Ok(Lexer.RepresentationAsWritten("\\n"))
  {
    Lexer.RepresentationAsWrittenMisreads();
    StringRoundTrip("\\n", d);
    assert "\\n" != "\n" by {
      assert |"\\n"| != |"\n"|;
    }
  }

  // ---------------------------------------------------------------------------------
  // The translator object
  // ---------------------------------------------------------------------------------

  /** `Translator`: the tree to translate and the current block depth. Every `Visit*`
      method returns the text `Render` gives at the depth it is called with, and leaves
      the depth as it found it. */
  class Translator {
    const ast: Node
    var indent: nat

    constructor (ast: Node)
      ensures this.ast == ast && indent == 0
    {
      this.ast := ast;
      indent := 0;
    }

    /** `ToPython`. */
    method ToPython() returns (r: Text)
      modifies this
      ensures indent == old(indent) && r == Render(ast, old(indent))
    {
      r := Visit(ast);
    }

    /** `GetIndent`. */
    method GetIndent(indentCount: int) returns (s: string)
      ensures s == Indent(indentCount)
    {
      s := "";
      var i := 0;
      while i < indentCount
        invariant 0 <= i && (i <= indentCount || i == 0)
        invariant s == Indent(i)
        decreases indentCount - i
      {
        s := s + Tab;
        i := i + 1;
      }
    }

    /** `Visit`: dispatch on the node kind; the one-line kinds are rendered here. */
    method Visit(node: Node) returns (r: Text)
      modifies this
      ensures indent == old(indent) && r == Render(node, old(indent))
      decreases node, 2
    {
      match node
      case NumberNode(v) => r := Ok(NumberText(v));
      case BinaryNode(_, _, _) => r := VisitExpression(node);
      case UnaryNode(_, _) => r := VisitSingleExpression(node);
      case VarAccess(name) => r := Ok(name);
      case VarAssign(name, v) =>
        var vs := Visit(v);
        r := Then(name + " = ", vs);
      case IfNode(_, _, _) => r := VisitIfExpressionNode(node);
      case ForIn(_, _, _) => r := VisitForExpression(node);
      case ForRange(_, _, _, _, _) => r := VisitForExpression(node);
      case WhileNode(_, _) => r := VisitWhileExpression(node);
      case FunctionDef(_, _, _) => r := VisitFunctionDefinition(node);
      case CallNode(_, _) => r := VisitFunctionCall(node);
      case StringNode(s) => r := Ok(Lexer.Representation(s));
      case ListNode(_, _) => r := VisitList(node);
      case ReturnNode(v) =>
        if v.None? {
          r := Ok("return");
        } else {
          var x := Visit(v.value);
          r := Then("return ", x);
        }
      case ContinueNode => r := Ok("continue");
      case BreakNode => r := Ok("break");
      case SubscriptionNode(_, _, _, _) => r := VisitSubscription(node);
      case DictionaryNode(_) => r := VisitDictionary(node);
      case AttributionNode(_, _, _, _) => r := VisitAttribution(node);
      case AdvancedAccess(_) => r := VisitAdvancedVarAccess(node);
      case NewNode(_) => r := VisitNewExpression(node);
      case AttributionCall(c) => r := Visit(c);
      case Nonlocal(v) => r := Ok("nonlocal " + v);
      case DeferNode(x) =>
        var xs := Visit(x);
        r := Around("__yan_keyword_impl_defer('", xs, "')");
    }

    /** `VisitExpression`: `left op right`. */
    method VisitExpression(node: Node) returns (r: Text)
      requires node.BinaryNode?
      modifies this
      ensures indent == old(indent) && r == Render(node, old(indent))
      decreases node, 1
    {
      assert Render(node, indent) == BinaryText(node, indent);
      var opValue := BinaryOperatorText(node.binaryOperator);
      if opValue.Err? {
        return Err(opValue.error);
      }
      var l := Visit(node.left);
      if l.Err? {
        return Err(l.error);
      }
      var rt := Visit(node.right);
      if rt.Err? {
        return Err(rt.error);
      }
      r := Ok(l.value + " " + opValue.value + " " + rt.value);
    }

    /** `VisitSingleExpression`: the prefix, then the operand. */
    method VisitSingleExpression(node: Node) returns (r: Text)
      requires node.UnaryNode?
      modifies this
      ensures indent == old(indent) && r == Render(node, old(indent))
      decreases node, 1
    {
      assert Render(node, indent) == UnaryText(node, indent);
      var opValue := UnaryPrefix(node.unaryOperator);
      if opValue.Err? {
        return Err(opValue.error);
      }
      var x := Visit(node.operand);
      r := Then(opValue.value, x);
    }

    /** `VisitIfExpressionNode`: the `if` line, its body one level deeper, then each
        `elif` and the `else` behind the `if`'s own indent. */
    method VisitIfExpressionNode(node: Node) returns (r: Text)
      requires node.IfNode?
      modifies this
      ensures indent == old(indent) && r == Render(node, old(indent))
      decreases node, 1
    {
      ghost var d := indent;
      assert Render(node, d) == IfText(node, d);
      indent := indent + 1;
      var c := Visit(node.first.condition);
      if c.Err? {
        indent := indent - 1;
        return Err(c.error);
      }
      var result := "if " + c.value + ":\n";
      var b := Visit(node.first.body);
      if b.Err? {
        indent := indent - 1;
        return Err(b.error);
      }
      result := result + b.value;
      r := VisitElifsAndElse(node, result);
    }

    /** The rest of `VisitIfExpressionNode`, kept as its own method: each `elif` and the
        `else` after `head`, behind the `if`'s own indent, which it restores on every path. */
    method VisitElifsAndElse(node: Node, head: string) returns (r: Text)
      requires node.IfNode? && indent >= 1
      modifies this
      ensures indent == old(indent) - 1
      ensures r == Then(head, Followed(Elifs(node.elifs, old(indent) - 1), ElseText(node.elseCase, old(indent) - 1)))
      decreases node, 0
    {
      ghost var d := indent - 1;
      var result := head;
      var elifs := node.elifs;
      ghost var tail := ElseText(node.elseCase, d);
      assert elifs[0..] == elifs;
      var i := 0;
      while i < |elifs|
        invariant 0 <= i <= |elifs| && indent == d + 1
        invariant Then(head, Followed(Elifs(elifs, d), tail)) == Then(result, Followed(Elifs(elifs[i..], d), tail))
      {
        var caseNode := elifs[i];
        assert caseNode in node.elifs;
        var pad := GetIndent(indent - 1);
        var cond := Visit(caseNode.condition);
        if cond.Err? {
          indent := indent - 1;
          ElifsFail(elifs, i, d, tail, result);
          return Err(cond.error);
        }
        ghost var before := result;
        result := result + pad + "elif " + cond.value + ":\n";
        var body := Visit(caseNode.body);
        if body.Err? {
          indent := indent - 1;
          ElifsFail(elifs, i, d, tail, before);
          return Err(body.error);
        }
        result := result + body.value;
        ElifsStep(elifs, i, d, tail, before, cond.value, body.value);
        i := i + 1;
      }
      assert elifs[i..] == [];
      IfTail(result, node.elseCase, d);
      if node.elseCase.Some? {
        var pad := GetIndent(indent - 1);
        var e := Visit(node.elseCase.value);
        if e.Err? {
          indent := indent - 1;
          return Err(e.error);
        }
        result := result + pad + "else:\n" + e.value;
      }
      indent := indent - 1;
      r := Ok(result);
    }

    /** `VisitForExpression`: `for v in e:` or `for v in range(a, b[, c]):`, then the
        body one level deeper. */
    method VisitForExpression(node: Node) returns (r: Text)
      requires node.ForIn? || node.ForRange?
      modifies this
      ensures indent == old(indent) && r == Render(node, old(indent))
      decreases node, 1
    {
      ghost var d := indent;
      assert Render(node, d) == if node.ForIn? then ForInText(node, d) else ForRangeText(node, d);
      indent := indent + 1;
      var result;
      if node.ForIn? {
        var rg := Visit(node.rangeExpr);
        if rg.Err? {
          indent := indent - 1;
          return Err(rg.error);
        }
        result := "for " + node.variable + " in " + rg.value + ":\n";
      } else {
        var st := Visit(node.startValue);
        if st.Err? {
          indent := indent - 1;
          return Err(st.error);
        }
        var et := Visit(node.endValue);
        if et.Err? {
          indent := indent - 1;
          return Err(et.error);
        }
        var head := "for " + node.variable + " in range(" + st.value + ", " + et.value;
        if node.stepValue.Some? {
          var sv := Visit(node.stepValue.value);
          assert StepText(node.stepValue, d + 1) == Then(", ", sv);
          if sv.Err? {
            indent := indent - 1;
            return Err(sv.error);
          }
          ConcatAssoc(head, ", ", sv.value);
          result := head + ", " + sv.value + "):\n";
        } else {
          assert StepText(node.stepValue, d + 1) == Ok("");
          assert head + "" == head;
          result := head + "):\n";
        }
      }
      var b := Visit(node.body);
      indent := indent - 1;
      r := Then(result, b);
    }

    /** `VisitWhileExpression`. */
    method VisitWhileExpression(node: Node) returns (r: Text)
      requires node.WhileNode?
      modifies this
      ensures indent == old(indent) && r == Render(node, old(indent))
      decreases node, 1
    {
      assert Render(node, indent) == WhileText(node, indent);
      indent := indent + 1;
      var c := Visit(node.condition);
      if c.Err? {
        indent := indent - 1;
        return Err(c.error);
      }
      var result := "while " + c.value + ":\n";
      var b := Visit(node.body);
      indent := indent - 1;
      r := Then(result, b);
    }

    /** The parameter loop of `VisitFunctionDefinition` and of a dictionary lambda:
        each parameter's text, with `", "` after all but the last. */
    method ParameterList(ps: seq<string>) returns (result: string)
      ensures result == Join(Parameters(ps), ", ")
    {
      var texts := Parameters(ps);
      result := "";
      var index := 0;
      assert texts[0..] == texts;
      while index < |ps|
        invariant 0 <= index <= |ps|
        invariant result + Join(texts[index..], ", ") == Join(texts, ", ")
      {
        JoinStep(texts, index, ", ");
        ghost var before := result;
        ghost var sep := if index + 1 < |ps| then ", " else "";
        result := result + ParameterText(ps[index]);
        if index != |ps| - 1 {
          result := result + ", ";
        }
        assert result == before + (texts[index] + sep);
        ConcatAssoc(before, texts[index] + sep, Join(texts[index + 1..], ", "));
        index := index + 1;
      }
      assert texts[index..] == [];
      assert result + "" == result;
    }

    /** `VisitFunctionDefinition`: `def name(params):`, then the body one level deeper. */
    method VisitFunctionDefinition(node: Node) returns (r: Text)
      requires node.FunctionDef?
      modifies this
      ensures indent == old(indent) && r == Render(node, old(indent))
      decreases node, 1
    {
      indent := indent + 1;
      var funcName := FunctionName(node.funcName);
      var result := "def " + funcName + "(";
      var params := ParameterList(node.parameters);
      result := result + params + "):\n";
      var b := Visit(node.body);
      indent := indent - 1;
      r := Then(result, b);
    }

    /** `VisitFunctionCall`: the target, prefixed when it names a builtin, and the
        arguments. */
    method VisitFunctionCall(node: Node) returns (r: Text)
      requires node.CallNode?
      modifies this
      ensures indent == old(indent) && r == Render(node, old(indent))
      decreases node, 1
    {
      assert Render(node, indent) == CallText(node, indent);
      ghost var d := indent;
      var t := Visit(node.target);
      if t.Err? {
        return Err(t.error);
      }
      var result := "";
      if IsBuiltinName(t.value) {
        result := BuiltinPrefix;
      }
      result := result + t.value + "(";
      var args := node.arguments;
      var index := 0;
      assert args[0..] == args;
      while index < |args|
        invariant 0 <= index <= |args| && indent == d
        invariant Render(node, d) == Around(result, Listed(args[index..], d), ")")
      {
        assert args[index] in node.arguments;
        ListedStep(args, index, d);
        var a := Visit(args[index]);
        if a.Err? {
          return Err(a.error);
        }
        ghost var before := result;
        ghost var sep := if index + 1 < |args| then ", " else "";
        AroundThen(before, a.value + sep, Listed(args[index + 1..], d), ")");
        result := result + a.value;
        if index != |args| - 1 {
          result := result + ", ";
        }
        ConcatAssoc(before, a.value, sep);
        assert result == before + (a.value + sep);
        assert Render(node, d) == Around(result, Listed(args[index + 1..], d), ")");
        index := index + 1;
      }
      assert args[index..] == [];
      AroundEmpty(result, ")");
      result := result + ")";
      r := Ok(result);
    }

    /** `VisitList`: a statement list one line per statement, any other list in
        brackets. */
    method VisitList(node: Node) returns (r: Text)
      requires node.ListNode?
      modifies this
      ensures indent == old(indent) && r == Render(node, old(indent))
      decreases node, 1
    {
      assert Render(node, indent) == ListText(node, indent);
      ghost var d := indent;
      var elems := node.elements;
      var result := "";
      assert elems[0..] == elems;
      if !node.isStatements {
        if elems == [] {
          return Ok("[]");
        }
        var index := 0;
        assert "[" + result == "[";
        while index < |elems|
          invariant 0 <= index <= |elems| && indent == d
          invariant Render(node, d) == Around("[" + result, Listed(elems[index..], d), "]")
        {
          assert elems[index] in node.elements;
          ListedStep(elems, index, d);
          var item := Visit(elems[index]);
          if item.Err? {
            return Err(item.error);
          }
          ghost var before := result;
          ghost var sep := if index + 1 < |elems| then ", " else "";
          AroundThen("[" + before, item.value + sep, Listed(elems[index + 1..], d), "]");
          result := result + item.value;
          if index != |elems| - 1 {
            result := result + ", ";
          }
          assert "[" + result == "[" + before + (item.value + sep);
          assert Render(node, d) == Around("[" + result, Listed(elems[index + 1..], d), "]");
          index := index + 1;
        }
        assert elems[index..] == [];
        AroundEmpty("[" + result, "]");
        return Ok("[" + result + "]");
      }
      var index := 0;
      ThenEmpty(Lines(elems, d));
      while index < |elems|
        invariant 0 <= index <= |elems| && indent == d
        invariant Render(node, d) == Then(result, Lines(elems[index..], d))
      {
        assert elems[index] in node.elements;
        assert elems[index..][0] == elems[index] && elems[index..][1..] == elems[index + 1..];
        var pad := GetIndent(indent);
        var item := Visit(elems[index]);
        if item.Err? {
          return Err(item.error);
        }
        ThenThen(result, pad + item.value + "\n", Lines(elems[index + 1..], d));
        LineAfterHeader(result, pad, item.value);
        result := result + pad + item.value + "\n";
        assert Render(node, d) == Then(result, Lines(elems[index + 1..], d));
        index := index + 1;
      }
      assert elems[index..] == [];
      assert result + "" == result;
      r := Ok(result);
    }

    /** `VisitSubscription`: `target[index]`, further `[i]`s, and an assignment. */
    method VisitSubscription(node: Node) returns (r: Text)
      requires node.SubscriptionNode?
      modifies this
      ensures indent == old(indent) && r == Render(node, old(indent))
      decreases node, 1
    {
      assert Render(node, indent) == SubscriptionText(node, indent);
      ghost var d := indent;
      var t := Visit(node.target);
      if t.Err? {
        return Err(t.error);
      }
      var ix := Visit(node.index);
      if ix.Err? {
        return Err(ix.error);
      }
      var result := t.value + "[" + ix.value + "]";
      var subs := node.subIndexes;
      ghost var tail := AssignmentText(node.assignment, d);
      assert subs[0..] == subs;
      var i := 0;
      while i < |subs|
        invariant 0 <= i <= |subs| && indent == d
        invariant Render(node, d) == Then(result, Followed(Brackets(subs[i..], d), tail))
      {
        assert subs[i] in node.subIndexes;
        BracketsStep(subs, i, d, tail);
        var item := Visit(subs[i]);
        if item.Err? {
          return Err(item.error);
        }
        ThenThen(result, "[" + item.value + "]", Followed(Brackets(subs[i + 1..], d), tail));
        assert result + ("[" + item.value + "]") == result + "[" + item.value + "]";
        result := result + "[" + item.value + "]";
        i := i + 1;
      }
      assert subs[i..] == [];
      AssignmentStep(result, node.assignment, d);
      if node.assignment.Some? {
        var a := Visit(node.assignment.value);
        if a.Err? {
          return Err(a.error);
        }
        result := result + " = " + a.value;
      }
      r := Ok(result);
    }

    /** `VisitDictionary`: a call of the dictionary class on a Python dict display; a
        function value becomes a lambda over the same parameter list as a `def`. */
    method VisitDictionary(node: Node) returns (r: Text)
      requires node.DictionaryNode?
      modifies this
      ensures indent == old(indent) && r == Render(node, old(indent))
      decreases node, 1
    {
      ghost var d := indent;
      var result := DictionaryConstructor + "({ ";
      var es := node.entries;
      assert es[0..] == es;
      var count := 1;
      while count <= |es|
        invariant 1 <= count <= |es| + 1 && indent == d
        invariant Render(node, d) == Around(result, Entries(es[count - 1..], d), " })")
      {
        var e := es[count - 1];
        assert e in node.entries;
        EntriesStep(es, count - 1, d);
        var entry := VisitEntry(e);
        if entry.Err? {
          return Err(entry.error);
        }
        var text := entry.value;
        ghost var before := result;
        ghost var sep := if count < |es| then ", " else "";
        AroundThen(before, text + sep, Entries(es[count..], d), " })");
        result := result + text;
        if count != |es| {
          result := result + ", ";
        }
        assert result == before + (text + sep);
        assert Render(node, d) == Around(result, Entries(es[count..], d), " })");
        count := count + 1;
      }
      assert es[count - 1..] == [];
      AroundEmpty(result, " })");
      result := result + " })";
      r := Ok(result);
    }

    /** One entry of `VisitDictionary`: `key: value`, or `key: lambda params: body` for
        a function value. */
    method VisitEntry(e: Entry) returns (r: Text)
      modifies this
      ensures indent == old(indent) && r == EntryText(e, old(indent))
      decreases e, 1
    {
      if e.value.FunctionDef? {
        var params := ParameterList(e.value.parameters);
        var inlineFunc := "lambda " + params;
        var body := Visit(e.value.body);
        var k := Visit(e.key);
        if k.Err? {
          return Err(k.error);
        }
        if body.Err? {
          return Err(body.error);
        }
        inlineFunc := inlineFunc + ": " + body.value;
        LambdaEntryText(k.value, params, body.value);
        r := Ok(k.value + ": " + inlineFunc);
      } else {
        var k := Visit(e.key);
        if k.Err? {
          return Err(k.error);
        }
        var v := Visit(e.value);
        if v.Err? {
          return Err(v.error);
        }
        r := Ok(k.value + ": " + v.value);
      }
    }

    /** `VisitAttribution`: `target.a.b…`, where a recorded call replaces the name at
        its position, and an assignment. */
    method VisitAttribution(node: Node) returns (r: Text)
      requires node.AttributionNode?
      modifies this
      ensures indent == old(indent) && r == Render(node, old(indent))
      decreases node, 1
    {
      ghost var d := indent;
      assert Render(node, d) == AttributionText(node, d);
      var t := Visit(node.target);
      if t.Err? {
        return Err(t.error);
      }
      var first;
      match node.firstMember {
        case AttrCall(c) =>
          var x := Visit(c);
          assert MemberText(node.firstMember, d) == x;
          if x.Err? {
            return Err(x.error);
          }
          first := x.value;
        case AttrName(name) =>
          first := name;
      }
      assert MemberText(node.firstMember, d) == Ok(first);
      var result := t.value + "." + first;
      var subs := node.subAttrs;
      ghost var tail := AssignmentText(node.assignment, d);
      assert subs[0..] == subs;
      var i := 0;
      while i < |subs|
        invariant 0 <= i <= |subs| && indent == d
        invariant Render(node, d) == Then(result, Followed(Members(subs[i..], d), tail))
      {
        var item := subs[i];
        assert item in node.subAttrs;
        assert subs[i..][0] == item && subs[i..][1..] == subs[i + 1..];
        MembersStep(subs, i, d, tail);
        var text;
        match item {
          case AttrCall(c) =>
            var x := Visit(c);
            if x.Err? {
              return Err(x.error);
            }
            text := x.value;
          case AttrName(name) =>
            text := name;
        }
        ThenThen(result, "." + text, Followed(Members(subs[i + 1..], d), tail));
        assert result + ("." + text) == result + "." + text;
        result := result + "." + text;
        i := i + 1;
      }
      assert subs[i..] == [];
      AssignmentStep(result, node.assignment, d);
      if node.assignment.Some? {
        var a := Visit(node.assignment.value);
        if a.Err? {
          return Err(a.error);
        }
        result := result + " = " + a.value;
      }
      r := Ok(result);
    }

    /** `VisitAdvancedVarAccess`: the parts written one after another. */
    method VisitAdvancedVarAccess(node: Node) returns (r: Text)
      requires node.AdvancedAccess?
      modifies this
      ensures indent == old(indent) && r == Render(node, old(indent))
      decreases node, 1
    {
      ghost var d := indent;
      var parts := node.parts;
      var result := "";
      assert parts[0..] == parts;
      ThenEmpty(Concatenated(parts, d));
      var i := 0;
      while i < |parts|
        invariant 0 <= i <= |parts| && indent == d
        invariant Render(node, d) == Then(result, Concatenated(parts[i..], d))
      {
        assert parts[i] in node.parts;
        assert parts[i..][0] == parts[i] && parts[i..][1..] == parts[i + 1..];
        var item := Visit(parts[i]);
        if item.Err? {
          return Err(item.error);
        }
        ThenThen(result, item.value, Concatenated(parts[i + 1..], d));
        result := result + item.value;
        i := i + 1;
      }
      assert parts[i..] == [];
      assert result + "" == result;
      r := Ok(result);
    }

    /** `VisitNewExpression`. */
    method VisitNewExpression(node: Node) returns (r: Text)
      requires node.NewNode?
      modifies this
      ensures indent == old(indent) && r == Render(node, old(indent))
      decreases node, 1
    {
      assert Render(node, indent) == NewText(node, indent);
      var x := Visit(node.newExpr);
      if x.Err? {
        return Err(x.error);
      }
      if node.newExpr.CallNode? {
        r := x;
      } else {
        r := Ok(x.value + "()");
      }
    }
  }

  /** Translating a whole tree: a fresh translator starts at depth 0. */
  method Translate(ast: Node) returns (r: Text)
    ensures r == Render(ast, 0)
  {
    var t := new Translator(ast);
    r := t.ToPython();
  }
}
