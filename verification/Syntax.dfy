/** Tokens, the trees the parser builds, and the parser's decisions as functions
    from the tokens ahead to a tree and the tokens left. */
module Syntax {
  import Source

  datatype Operator =
    | Add | Sub | Or
    | Mul | Slash | Div | Mod | And
    | Equals | NotEquals | Less | LessEq | Greater | GreaterEq

  datatype Token =
    | Ident(name: string) | IntLit(text: string) | RealLit(text: string)
    | OpTok(op: Operator) | NotTok | IsTok
    | LParen | RParen | LBracket | RBracket | Comma | Semi | Period | ColonEqual
    | IfTok | ThenTok | ElseTok | WhileTok | DoTok | ReturnTok | EndTok

  /** Group and the statements Nothing and Mention are what may be written and leaves no
      trace: the parser builds none of them. */
  datatype Tree =
    | Num(text: string)
    | RealNum(text: string)
    | Name(name: string)
    | Apply(name: string, args: seq<Tree>)                 // a function call
    | Element(base: Tree, index: Tree)
    | Member(base: Tree, name: string)
    | Send(base: Tree, name: string, args: seq<Tree>)      // a type-bound procedure call
    | Signed(op: Operator, t: Tree)
    | Negated(t: Tree)
    | Binary(op: Operator, l: Tree, r: Tree)
    | Is(l: Tree, ty: string)
    | Group(t: Tree)                                       // in parentheses

  datatype STree =
    | AssignTo(target: Tree, value: Tree)
    | CallProc(name: string, args: seq<Tree>)
    | CallMethod(call: Tree)
    | IfThen(cond: Tree, thn: seq<STree>, els: seq<STree>)
    | WhileDo(cond: Tree, body: seq<STree>)
    | ReturnWith(result: Source.Option<Tree>)
    | Nothing                                              // between two semicolons, say
    | Mention(target: Tree)                                // a designator that is no call

  predicate IsMulOp(o: Operator) { o.Mul? || o.Slash? || o.Div? || o.Mod? || o.And? }
  predicate IsSign(o: Operator) { o.Add? || o.Sub? }
  predicate IsAddOp(o: Operator) { IsSign(o) || o.Or? }
  predicate IsRelation(o: Operator) { !IsMulOp(o) && !IsAddOp(o) }

  // What the next token is.

  predicate Sees(ts: seq<Token>, t: Token) { ts != [] && ts[0] == t }
  predicate SeesMulOp(ts: seq<Token>) { ts != [] && ts[0].OpTok? && IsMulOp(ts[0].op) }
  predicate SeesSign(ts: seq<Token>) { ts != [] && ts[0].OpTok? && IsSign(ts[0].op) }
  predicate SeesAddOp(ts: seq<Token>) { ts != [] && ts[0].OpTok? && IsAddOp(ts[0].op) }
  predicate SeesRelation(ts: seq<Token>) { ts != [] && ts[0].OpTok? && IsRelation(ts[0].op) }

  /** The tokens an expression can start with. */
  predicate SeesExpression(ts: seq<Token>) {
    ts != [] && (ts[0].LParen? || SeesSign(ts) || ts[0].NotTok? || ts[0].Ident? || ts[0].IntLit? || ts[0].RealLit?)
  }

  /** The value built and the tokens left; Fails where the parser reports. */
  datatype Parsed<T> = Ok(v: T, rest: seq<Token>) | Fails

  // ----- expressions -----

  function Expression(ts: seq<Token>): (r: Parsed<Tree>)
    ensures r.Ok? ==> |r.rest| < |ts|
    decreases |ts|, 5
  {
    match Simple(ts)
    case Fails => Fails
    case Ok(e, r) =>
      if SeesRelation(r) then
        match Simple(r[1..])
        case Fails => Fails
        case Ok(e1, r1) => Ok(Binary(r[0].op, e, e1), r1)
      else if Sees(r, IsTok) then
        if |r| > 1 && r[1].Ident? then Ok(Is(e, r[1].name), r[2..]) else Fails
      else Ok(e, r)
  }

  function Simple(ts: seq<Token>): (r: Parsed<Tree>)
    ensures r.Ok? ==> |r.rest| < |ts|
    decreases |ts|, 4
  {
    if SeesSign(ts) then
      match Term(ts[1..])
      case Fails => Fails
      case Ok(e, r) => SimpleTail(Signed(ts[0].op, e), r)
    else
      match Term(ts)
      case Fails => Fails
      case Ok(e, r) => SimpleTail(e, r)
  }

  function SimpleTail(e: Tree, ts: seq<Token>): (r: Parsed<Tree>)
    ensures r.Ok? ==> |r.rest| <= |ts|
    decreases |ts|, 4
  {
    if SeesAddOp(ts) then
      match Term(ts[1..])
      case Fails => Fails
      case Ok(e1, r) => SimpleTail(Binary(ts[0].op, e, e1), r)
    else Ok(e, ts)
  }

  function Term(ts: seq<Token>): (r: Parsed<Tree>)
    ensures r.Ok? ==> |r.rest| < |ts|
    decreases |ts|, 3
  {
    match Factor(ts)
    case Fails => Fails
    case Ok(e, r) => TermTail(e, r)
  }

  function TermTail(e: Tree, ts: seq<Token>): (r: Parsed<Tree>)
    ensures r.Ok? ==> |r.rest| <= |ts|
    decreases |ts|, 3
  {
    if SeesMulOp(ts) then
      match Factor(ts[1..])
      case Fails => Fails
      case Ok(e1, r) => TermTail(Binary(ts[0].op, e, e1), r)
    else Ok(e, ts)
  }

  function Factor(ts: seq<Token>): (r: Parsed<Tree>)
    ensures r.Ok? ==> |r.rest| < |ts|
    decreases |ts|, 2
  {
    if ts == [] then Fails
    else
      match ts[0]
      case IntLit(s) => Ok(Num(s), ts[1..])
      case RealLit(s) => Ok(RealNum(s), ts[1..])
      case Ident(n) =>
        if Sees(ts[1..], LParen) then
          match Arguments(ts[2..])
          case Fails => Fails
          case Ok(args, r) => Designator(Apply(n, args), r)
        else Designator(Name(n), ts[1..])
      case LParen =>
        (match Expression(ts[1..])
         case Ok(e, r) => if Sees(r, RParen) then Ok(e, r[1..]) else Fails
         case Fails => Fails)
      case NotTok =>
        (match Factor(ts[1..])
         case Ok(e, r) => Ok(Negated(e), r)
         case Fails => Fails)
      case _ => Fails
  }

  /** The arguments after an opening parenthesis, and the closing one. */
  function Arguments(ts: seq<Token>): (r: Parsed<seq<Tree>>)
    ensures r.Ok? ==> |r.rest| < |ts|
    decreases |ts|, 7
  {
    if SeesExpression(ts) then
      match ExpList(ts)
      case Fails => Fails
      case Ok(args, r) => if Sees(r, RParen) then Ok(args, r[1..]) else Fails
    else if Sees(ts, RParen) then Ok([], ts[1..])
    else Fails
  }

  function ExpList(ts: seq<Token>): (r: Parsed<seq<Tree>>)
    ensures r.Ok? ==> |r.rest| < |ts|
    decreases |ts|, 6
  {
    match Expression(ts)
    case Fails => Fails
    case Ok(e, r) => ExpListTail([e], r)
  }

  function ExpListTail(es: seq<Tree>, ts: seq<Token>): (r: Parsed<seq<Tree>>)
    ensures r.Ok? ==> |r.rest| <= |ts|
    decreases |ts|, 6
  {
    if Sees(ts, Comma) then
      match Expression(ts[1..])
      case Fails => Fails
      case Ok(e, r) => ExpListTail(es + [e], r)
    else Ok(es, ts)
  }

  function Designator(e: Tree, ts: seq<Token>): (r: Parsed<Tree>)
    ensures r.Ok? ==> |r.rest| <= |ts|
    decreases |ts|, 1
  {
    if Sees(ts, LBracket) then
      match Expression(ts[1..])
      case Fails => Fails
      case Ok(i, r) => if Sees(r, RBracket) then Designator(Element(e, i), r[1..]) else Fails
    else if Sees(ts, Period) then
      if |ts| > 1 && ts[1].Ident? then
        if Sees(ts[2..], LParen) then
          match Arguments(ts[3..])
          case Fails => Fails
          case Ok(args, r) => Designator(Send(e, ts[1].name, args), r)
        else Designator(Member(e, ts[1].name), ts[2..])
      else Fails
    else Ok(e, ts)
  }

  // ----- statements -----

  /** Ends a statement sequence, or separates its statements. */
  predicate SeesEnd(ts: seq<Token>) { Sees(ts, ElseTok) || Sees(ts, EndTok) }

  /** One statement added to ss: none where a separator or an end is next. */
  function Statement(ss: seq<STree>, ts: seq<Token>): (r: Parsed<seq<STree>>)
    ensures r.Ok? ==> |r.rest| <= |ts|
    decreases |ts|, 1
  {
    if ts == [] then Fails
    else
      match ts[0]
      case Ident(n) =>
        if Sees(ts[1..], LParen) then
          match Arguments(ts[2..])
          case Fails => Fails
          case Ok(args, r) => Ok(ss + [CallProc(n, args)], r)
        else
          (match Designator(Name(n), ts[1..])
           case Fails => Fails
           case Ok(target, r) =>
             if Sees(r, ColonEqual) then
               match Expression(r[1..])
               case Fails => Fails
               case Ok(e, r1) => Ok(ss + [AssignTo(target, e)], r1)
             else Ok(if target.Send? then ss + [CallMethod(target)] else ss, r))
      case IfTok =>
        (match Expression(ts[1..])
         case Fails => Fails
         case Ok(c, r) =>
           if !Sees(r, ThenTok) then Fails
           else
             match Sequence(r[1..])
             case Fails => Fails
             case Ok(thn, r1) => IfRest(ss, c, thn, r1))
      case WhileTok =>
        (match Expression(ts[1..])
         case Fails => Fails
         case Ok(c, r) =>
           if !Sees(r, DoTok) then Fails
           else
             match Sequence(r[1..])
             case Fails => Fails
             case Ok(body, r1) => if Sees(r1, EndTok) then Ok(ss + [WhileDo(c, body)], r1[1..]) else Fails)
      case ReturnTok =>
        if SeesExpression(ts[1..]) then
          match Expression(ts[1..])
          case Fails => Fails
          case Ok(e, r) => Ok(ss + [ReturnWith(Source.Some(e))], r)
        else Ok(ss + [ReturnWith(Source.None)], ts[1..])
      case _ => if Sees(ts, Semi) || SeesEnd(ts) then Ok(ss, ts) else Fails
  }

  /** The rest of an IF after its first arm. */
  function IfRest(ss: seq<STree>, c: Tree, thn: seq<STree>, ts: seq<Token>): (r: Parsed<seq<STree>>)
    ensures r.Ok? ==> |r.rest| <= |ts|
    decreases |ts|, 3
  {
    if Sees(ts, ElseTok) then
      match Sequence(ts[1..])
      case Fails => Fails
      case Ok(els, r) => if Sees(r, EndTok) then Ok(ss + [IfThen(c, thn, els)], r[1..]) else Fails
    else if Sees(ts, EndTok) then Ok(ss + [IfThen(c, thn, [])], ts[1..])
    else Fails
  }

  function Sequence(ts: seq<Token>): (r: Parsed<seq<STree>>)
    ensures r.Ok? ==> |r.rest| <= |ts|
    decreases |ts|, 3
  {
    match Statement([], ts)
    case Fails => Fails
    case Ok(ss, r) => SequenceTail(ss, r)
  }

  function SequenceTail(ss: seq<STree>, ts: seq<Token>): (r: Parsed<seq<STree>>)
    ensures r.Ok? ==> |r.rest| <= |ts|
    decreases |ts|, 2
  {
    if Sees(ts, Semi) then
      match Statement(ss, ts[1..])
      case Fails => Fails
      case Ok(ss1, r) => SequenceTail(ss1, r)
    else Ok(ss, ts)
  }
}
