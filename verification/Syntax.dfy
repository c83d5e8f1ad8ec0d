/** The statement trees that the reaching-definitions analysis walks. */
module Syntax {
  import opened Wrappers

  /** A half-open byte range of the source. */
  datatype Span = Span(start: nat, end: nat) {
    predicate Contains(inner: Span) {
      start <= inner.start && inner.end <= end
    }
  }

  /** One statement node.  Expressions only matter through their byte ranges, so a leaf statement, a condition or
      a `for` header part is just its span.  A missing body or `else` is `Nop`: both hand the state through. */
  datatype Stmt =
    | Block(stmts: seq<Stmt>)
    | Leaf(region: Span)
    | Return(region: Span)
    | Break
    | Continue
    | Nop
    | If(cond: Option<Span>, body: Stmt, els: Stmt)
    | While(cond: Option<Span>, body: Stmt)
    | DoWhile(body: Stmt, cond: Option<Span>)
    | For(init: Option<Span>, cond: Option<Span>, iter: Option<Span>, body: Stmt)
    | Switch(cond: Option<Span>, sections: seq<Section>)
    | Unmodelled(region: Span)

  /** A child of a switch block: a label, or a statement between labels. */
  datatype Section =
    | CaseLabel(value: Option<Span>)
    | DefaultLabel
    | Code(stmt: Stmt)

  predicate HasDefault(sections: seq<Section>) {
    exists i :: 0 <= i < |sections| && sections[i].DefaultLabel?
  }
}
