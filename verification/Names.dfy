// How names become tag numbers (resolveName and bindExpr, src/st/pou_binder.cpp).

module Names {
  import opened Values
  import opened Ast

  // Own scope first, then any declared tag of that full name.
  function Resolve(name: string, scope: map<string, nat>, byName: map<string, nat>): Option<nat> {
    if name in scope then Some(scope[name])
    else if name in byName then Some(byName[name])
    else None
  }

  // Fails where a name stands for nothing.
  function BindExpr(x: Expr, scope: map<string, nat>, byName: map<string, nat>): Option<Expr> {
    match x
    case Literal(_) => Some(x)
    case Identifier(n, _) =>
      var id := Resolve(n, scope, byName);
      if id.None? then None else Some(Identifier(n, id.value))
    case Unary(op, y) =>
      var b := BindExpr(y, scope, byName);
      if b.None? then None else Some(Unary(op, b.value))
    case Binary(op, l, r) =>
      var bl, br := BindExpr(l, scope, byName), BindExpr(r, scope, byName);
      if bl.None? || br.None? then None else Some(Binary(op, bl.value, br.value))
  }

  // std::to_string
  function Digits(n: nat): string {
    if n < 10 then ["0123456789"[n]] else Digits(n / 10) + ["0123456789"[n % 10]]
  }
}
