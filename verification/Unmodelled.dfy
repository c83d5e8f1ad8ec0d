/** Reads inside a statement the analysis does not know, such as an error node: `poison` in src/resolve/reaching_defs.rs. */
module UnmodelledReads {
  import opened Wrappers
  import opened Syntax
  import opened ReachingDefs
  import opened Window

  /** The read stands in a statement that the walk does not know. */
  predicate InUnmodelled(stmt: Stmt, x: Span)
    decreases stmt, 1
  {
    match stmt
    case Block(stmts) => exists i :: 0 <= i < |stmts| && InUnmodelled(stmts[i], x)
    case If(_, body, els) => InUnmodelled(body, x) || InUnmodelled(els, x)
    case While(_, body) => InUnmodelled(body, x)
    case DoWhile(body, _) => InUnmodelled(body, x)
    case For(_, _, _, body) => InUnmodelled(body, x)
    case Switch(_, sections) => InUnmodelledSection(sections, x)
    case Unmodelled(region) => region.Contains(x)
    case _ => false
  }

  predicate InUnmodelledSection(sections: seq<Section>, x: Span)
    decreases sections, 0
  {
    exists i :: 0 <= i < |sections| && sections[i].Code? && (assert sections[i].stmt < sections[i]; InUnmodelled(sections[i].stmt, x))
  }

  /** Nothing is recorded, or every definition there can be. */
  ghost predicate NoneOrAll(mask: Mask) {
    mask == {} || forall i: nat :: i in mask <==> i < 128
  }

  /** A statement marks no read outside its text. */
  lemma {:induction false} MarksInside(owners: seq<Span>, stmt: Stmt, state: Mask, x: Span, lo: nat)
    requires Place(stmt, lo).Some? && !Inside(x, lo, Place(stmt, lo).value)
    ensures MarkOf(owners, stmt, state, x) == {}
    decreases stmt, 1
  {
    match stmt
    case Block(stmts) => BlockMarksInside(owners, stmts, state, x, lo);
    case If(cond, body, els) =>
      var a := PlaceRegion(cond, lo).value;
      MarksInside(owners, body, state, x, a);
      MarksInside(owners, els, state, x, Place(body, a).value);
    case While(cond, body) =>
      MarksInside(owners, body, LoopEntry(FlowOf(owners, body, state), state), x, PlaceRegion(cond, lo).value);
    case DoWhile(body, _) =>
      MarksInside(owners, body, LoopEntry(FlowOf(owners, body, state), state), x, lo);
    case For(init, cond, iter, body) =>
      var entry := GenInOpt(owners, init, state);
      var header := ForHeader(owners, FlowOf(owners, body, entry), iter, entry);
      MarksInside(owners, body, header, x, PlaceRegion(iter, PlaceRegion(cond, PlaceRegion(init, lo).value).value).value);
    case Switch(cond, sections) => SectionsMarkInside(owners, sections, state, None, x, PlaceRegion(cond, lo).value);
    case _ =>
  }

  lemma {:induction false} BlockMarksInside(owners: seq<Span>, stmts: seq<Stmt>, state: Mask, x: Span, lo: nat)
    requires PlaceBlock(stmts, lo).Some? && !Inside(x, lo, PlaceBlock(stmts, lo).value)
    ensures MarkOfBlock(owners, stmts, state, x) == {}
    decreases stmts, 0
  {
    if stmts != [] {
      MarksInside(owners, stmts[0], state, x, lo);
      var f := FlowOf(owners, stmts[0], state);
      if f.normal.Some? {
        BlockMarksInside(owners, stmts[1..], f.normal.value, x, Place(stmts[0], lo).value);
      }
    }
  }

  lemma {:induction false} SectionsMarkInside(owners: seq<Span>, sections: seq<Section>, entry: Mask, cur: Option<Mask>, x: Span, lo: nat)
    requires PlaceSections(sections, lo).Some? && !Inside(x, lo, PlaceSections(sections, lo).value)
    ensures MarkOfSections(owners, sections, entry, cur, x) == {}
    decreases sections, 0
  {
    if sections != [] {
      var mid := PlaceSection(sections[0], lo).value;
      if sections[0].Code? {
        assert sections[0].stmt < sections[0];
        MarksInside(owners, sections[0].stmt, OrElse(cur, entry), x, lo);
        SectionsMarkInside(owners, sections[1..], entry, FlowOf(owners, sections[0].stmt, OrElse(cur, entry)).normal, x, mid);
      } else {
        SectionsMarkInside(owners, sections[1..], entry, Union(cur, Some(entry)), x, mid);
      }
    }
  }

  /** Such a read lies in the text of the statement. */
  lemma {:induction false} ReadInside(stmt: Stmt, x: Span, lo: nat)
    requires Place(stmt, lo).Some? && InUnmodelled(stmt, x)
    ensures Inside(x, lo, Place(stmt, lo).value)
    decreases stmt, 1
  {
    match stmt
    case Block(stmts) => ReadInsideBlock(stmts, x, lo);
    case If(cond, body, els) =>
      var a := PlaceRegion(cond, lo).value;
      if InUnmodelled(body, x) {
        ReadInside(body, x, a);
      } else {
        ReadInside(els, x, Place(body, a).value);
      }
    case While(cond, body) => ReadInside(body, x, PlaceRegion(cond, lo).value);
    case DoWhile(body, _) => ReadInside(body, x, lo);
    case For(init, cond, iter, body) =>
      ReadInside(body, x, PlaceRegion(iter, PlaceRegion(cond, PlaceRegion(init, lo).value).value).value);
    case Switch(cond, sections) => ReadInsideSections(sections, x, PlaceRegion(cond, lo).value);
    case Unmodelled(_) =>
  }

  lemma {:induction false} ReadInsideBlock(stmts: seq<Stmt>, x: Span, lo: nat)
    requires PlaceBlock(stmts, lo).Some? && exists i :: 0 <= i < |stmts| && InUnmodelled(stmts[i], x)
    ensures Inside(x, lo, PlaceBlock(stmts, lo).value)
    decreases stmts, 0
  {
    if InUnmodelled(stmts[0], x) {
      ReadInside(stmts[0], x, lo);
    } else {
      ShiftRead(stmts, x);
      ReadInsideBlock(stmts[1..], x, Place(stmts[0], lo).value);
    }
  }

  lemma ShiftRead(stmts: seq<Stmt>, x: Span)
    requires (exists i :: 0 <= i < |stmts| && InUnmodelled(stmts[i], x)) && !InUnmodelled(stmts[0], x)
    ensures exists i :: 0 <= i < |stmts[1..]| && InUnmodelled(stmts[1..][i], x)
  {
    var i :| 0 <= i < |stmts| && InUnmodelled(stmts[i], x);
    assert stmts[1..][i - 1] == stmts[i];
  }

  lemma {:induction false} ReadInsideSections(sections: seq<Section>, x: Span, lo: nat)
    requires PlaceSections(sections, lo).Some? && InUnmodelledSection(sections, x)
    ensures Inside(x, lo, PlaceSections(sections, lo).value)
    decreases sections, 0
  {
    if sections[0].Code? && InUnmodelled(sections[0].stmt, x) {
      assert sections[0].stmt < sections[0];
      ReadInside(sections[0].stmt, x, lo);
    } else {
      ShiftSection(sections, x);
      ReadInsideSections(sections[1..], x, PlaceSection(sections[0], lo).value);
    }
  }

  lemma ShiftSection(sections: seq<Section>, x: Span)
    requires InUnmodelledSection(sections, x) && !(sections[0].Code? && InUnmodelled(sections[0].stmt, x))
    ensures InUnmodelledSection(sections[1..], x)
  {
    var i :| 0 <= i < |sections| && sections[i].Code? && InUnmodelled(sections[i].stmt, x);
    assert sections[1..][i - 1] == sections[i];
  }

  /** The mask of such a read holds every definition there can be, or none where the walk does not come by. */
  lemma {:induction false} NoneOrAllMarked(owners: seq<Span>, stmt: Stmt, state: Mask, x: Span, lo: nat)
    requires Place(stmt, lo).Some? && x.start < x.end && InUnmodelled(stmt, x)
    ensures NoneOrAll(MarkOf(owners, stmt, state, x))
    decreases stmt, 1
  {
    ReadInside(stmt, x, lo);
    match stmt
    case Block(stmts) => NoneOrAllInBlock(owners, stmts, state, x, lo);
    case If(cond, body, els) => NoneOrAllInIf(owners, stmt, state, x, lo);
    case While(cond, body) =>
      var a := PlaceRegion(cond, lo).value;
      ReadInside(body, x, a);
      NoneOrAllMarked(owners, body, LoopEntry(FlowOf(owners, body, state), state), x, a);
    case DoWhile(body, cond) =>
      ReadInside(body, x, lo);
      NoneOrAllMarked(owners, body, LoopEntry(FlowOf(owners, body, state), state), x, lo);
    case For(init, cond, iter, body) =>
      var entry := GenInOpt(owners, init, state);
      var a := PlaceRegion(iter, PlaceRegion(cond, PlaceRegion(init, lo).value).value).value;
      ReadInside(body, x, a);
      NoneOrAllMarked(owners, body, ForHeader(owners, FlowOf(owners, body, entry), iter, entry), x, a);
    case Switch(cond, sections) =>
      var a := PlaceRegion(cond, lo).value;
      ReadInsideSections(sections, x, a);
      NoneOrAllInSections(owners, sections, state, None, x, a);
    case Unmodelled(_) =>
  }

  lemma {:induction false} NoneOrAllInIf(owners: seq<Span>, stmt: Stmt, state: Mask, x: Span, lo: nat)
    requires stmt.If? && Place(stmt, lo).Some? && x.start < x.end && InUnmodelled(stmt, x)
    ensures NoneOrAll(MarkOf(owners, stmt, state, x))
    decreases stmt, 0
  {
    var a := PlaceRegion(stmt.cond, lo).value;
    var b := Place(stmt.body, a).value;
    if InUnmodelled(stmt.body, x) {
      ReadInside(stmt.body, x, a);
      NoneOrAllMarked(owners, stmt.body, state, x, a);
      MarksInside(owners, stmt.els, state, x, b);
    } else {
      ReadInside(stmt.els, x, b);
      NoneOrAllMarked(owners, stmt.els, state, x, b);
      MarksInside(owners, stmt.body, state, x, a);
    }
  }

  lemma {:induction false} NoneOrAllInBlock(owners: seq<Span>, stmts: seq<Stmt>, state: Mask, x: Span, lo: nat)
    requires PlaceBlock(stmts, lo).Some? && x.start < x.end && exists i :: 0 <= i < |stmts| && InUnmodelled(stmts[i], x)
    ensures NoneOrAll(MarkOfBlock(owners, stmts, state, x))
    decreases stmts, 0
  {
    var mid, f := Place(stmts[0], lo).value, FlowOf(owners, stmts[0], state);
    if InUnmodelled(stmts[0], x) {
      ReadInside(stmts[0], x, lo);
      NoneOrAllMarked(owners, stmts[0], state, x, lo);
      if f.normal.Some? {
        BlockMarksInside(owners, stmts[1..], f.normal.value, x, mid);
      }
    } else {
      ShiftRead(stmts, x);
      ReadInsideBlock(stmts[1..], x, mid);
      MarksInside(owners, stmts[0], state, x, lo);
      if f.normal.Some? {
        NoneOrAllInBlock(owners, stmts[1..], f.normal.value, x, mid);
      }
    }
  }

  lemma {:induction false} NoneOrAllInSections(owners: seq<Span>, sections: seq<Section>, entry: Mask, cur: Option<Mask>, x: Span, lo: nat)
    requires PlaceSections(sections, lo).Some? && x.start < x.end && InUnmodelledSection(sections, x)
    ensures NoneOrAll(MarkOfSections(owners, sections, entry, cur, x))
    decreases sections, 0
  {
    var mid := PlaceSection(sections[0], lo).value;
    if sections[0].Code? && InUnmodelled(sections[0].stmt, x) {
      var stmt, state := sections[0].stmt, OrElse(cur, entry);
      assert stmt < sections[0];
      ReadInside(stmt, x, lo);
      NoneOrAllMarked(owners, stmt, state, x, lo);
      SectionsMarkInside(owners, sections[1..], entry, FlowOf(owners, stmt, state).normal, x, mid);
    } else {
      ShiftSection(sections, x);
      ReadInsideSections(sections[1..], x, mid);
      if sections[0].Code? {
        MarksInside(owners, sections[0].stmt, OrElse(cur, entry), x, lo);
        NoneOrAllInSections(owners, sections[1..], entry, FlowOf(owners, sections[0].stmt, OrElse(cur, entry)).normal, x, mid);
      } else {
        NoneOrAllInSections(owners, sections[1..], entry, Union(cur, Some(entry)), x, mid);
      }
    }
  }

  /** No read in an unknown statement is ever given a definition, whatever the definitions and the statements around it. */
  lemma UnmodelledReadIsUnnamed(owners: seq<Span>, body: seq<Stmt>, x: Span)
    requires PlaceBlock(body, 0).Some? && x.start < x.end && InUnmodelled(Block(body), x)
    ensures var mask := MarkOfBlock(owners, body, {}, x);
      (mask == {} || forall i: nat :: i in mask <==> i < 128) && SoleDef(mask) == None
  {
    NoneOrAllInBlock(owners, body, {}, x, 0);
    var mask := MarkOfBlock(owners, body, {}, x);
    if mask != {} {
      assert 0 in mask && 1 in mask;
    }
  }
}
