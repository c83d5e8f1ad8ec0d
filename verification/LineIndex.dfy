/** Byte offsets and positions in UTF-16 units (src/line_index.rs), and the content changes expressed with them
    (src/document.rs, `_did_change` in src/bin/witcherscript-lsp/text_sync.rs).  A text is its sequence of Unicode scalar
    values; offsets count the bytes of its UTF-8 form. */
module LineIndex {
  import opened Wrappers

  const U32_MAX: nat := 0xFFFF_FFFF

  /** Saturates: positions are u32. */
  function Clamp(n: nat): nat {
    if n > U32_MAX then U32_MAX else n
  }

  datatype Position = Position(line: nat, character: nat)

  function Utf8Len(c: char): nat {
    if c < '\U{80}' then 1 else if c < '\U{800}' then 2 else if c < '\U{10000}' then 3 else 4
  }

  function Utf16Len(c: char): nat {
    if c < '\U{10000}' then 1 else 2
  }

  function Bytes(s: string): nat {
    if s == "" then 0 else Bytes(s[..|s| - 1]) + Utf8Len(s[|s| - 1])
  }

  function Units(s: string): nat {
    if s == "" then 0 else Units(s[..|s| - 1]) + Utf16Len(s[|s| - 1])
  }

  lemma {:induction false} SumsConcat(a: string, b: string)
    ensures Bytes(a + b) == Bytes(a) + Bytes(b) && Units(a + b) == Units(a) + Units(b)
  {
    if b == "" {
      assert a + b == a;
    } else {
      assert (a + b)[..|a + b| - 1] == a + b[..|b| - 1];
      SumsConcat(a, b[..|b| - 1]);
    }
  }

  /** Longer prefixes are longer in bytes and in units. */
  lemma PrefixGrows(s: string, i: nat, j: nat)
    requires i < j <= |s|
    ensures Bytes(s[..i]) < Bytes(s[..j]) && Units(s[..i]) < Units(s[..j])
  {
    assert s[..j] == s[..i] + s[i..j];
    SumsConcat(s[..i], s[i..j]);
  }

  /** The number of characters in the first `byte` bytes, if that is a character boundary. */
  function IndexOf(s: string, byte: nat): (r: Option<nat>)
    ensures r.Some? ==> r.value <= |s| && Bytes(s[..r.value]) == byte
  {
    if Bytes(s) == byte then assert s[..|s|] == s; Some(|s|)
    else if s == "" then None
    else
      assert forall i :: 0 <= i < |s| ==> s[..|s| - 1][..i] == s[..i];
      var r := IndexOf(s[..|s| - 1], byte);
      assert r.Some? ==> s[..|s| - 1][..r.value] == s[..r.value];
      r
  }

  lemma {:induction false} IndexOfBoundary(s: string, k: nat)
    requires k <= |s|
    ensures IndexOf(s, Bytes(s[..k])) == Some(k)
  {
    if k == |s| {
      assert s[..k] == s;
    } else {
      PrefixGrows(s, k, |s|);
      assert s[..|s|] == s && s[..|s| - 1][..k] == s[..k];
      IndexOfBoundary(s[..|s| - 1], k);
    }
  }

  /* The index. */

  /** The byte offsets at which lines start. */
  function LineStarts(s: string): (r: seq<nat>)
    ensures r != []
  {
    if s == "" then [0]
    else LineStarts(s[..|s| - 1]) + if s[|s| - 1] == '\n' then [Bytes(s)] else []
  }

  /** The same in characters. */
  function CharStarts(s: string): (r: seq<nat>)
    ensures r != [] && forall i :: 0 <= i < |r| ==> r[i] <= |s|
  {
    if s == "" then [0]
    else CharStarts(s[..|s| - 1]) + if s[|s| - 1] == '\n' then [|s|] else []
  }

  lemma {:induction false} StartsAgree(s: string)
    ensures |LineStarts(s)| == |CharStarts(s)|
    ensures forall i :: 0 <= i < |CharStarts(s)| ==> LineStarts(s)[i] == Bytes(s[..CharStarts(s)[i]])
  {
    if s != "" {
      var t := s[..|s| - 1];
      StartsAgree(t);
      forall i | 0 <= i < |CharStarts(s)|
        ensures LineStarts(s)[i] == Bytes(s[..CharStarts(s)[i]])
      {
        if i < |CharStarts(t)| {
          assert s[..CharStarts(t)[i]] == t[..CharStarts(t)[i]];
        } else {
          assert s[..|s|] == s;
        }
      }
    }
  }

  /** `LineIndex::new`. */
  method New(source: string) returns (lineStarts: seq<nat>)
    ensures lineStarts == LineStarts(source)
  {
    lineStarts := [0];
    var byte := 0;
    for i := 0 to |source|
      invariant byte == Bytes(source[..i]) && lineStarts == LineStarts(source[..i])
    {
      assert source[..i + 1][..i] == source[..i];
      byte := byte + Utf8Len(source[i]);
      if source[i] == '\n' {
        lineStarts := lineStarts + [byte];
      }
    }
    assert source[..|source|] == source;
  }

  /** `partition_point(|start| start <= byte)` on the increasing line starts. */
  function PartitionPoint(starts: seq<nat>, byte: nat): (n: nat)
    ensures n <= |starts| && (forall i :: 0 <= i < n ==> starts[i] <= byte) && (n < |starts| ==> starts[n] > byte)
  {
    if starts == [] || starts[0] > byte then 0 else 1 + PartitionPoint(starts[1..], byte)
  }

  /** Before character `k` lie exactly the line starts of the text up to `k`. */
  lemma {:induction false} StartsOfPrefix(s: string, k: nat)
    requires k <= |s|
    ensures var n := |CharStarts(s[..k])|;
      && n <= |CharStarts(s)| && CharStarts(s)[..n] == CharStarts(s[..k])
      && forall i :: n <= i < |CharStarts(s)| ==> CharStarts(s)[i] > k
  {
    if k == |s| {
      assert s[..k] == s;
    } else {
      assert s[..|s| - 1][..k] == s[..k];
      StartsOfPrefix(s[..|s| - 1], k);
    }
  }

  lemma PartitionAt(s: string, k: nat)
    requires k <= |s|
    ensures PartitionPoint(LineStarts(s), Bytes(s[..k])) == |CharStarts(s[..k])|
  {
    StartsAgree(s);
    StartsOfPrefix(s, k);
    var starts, n := CharStarts(s), |CharStarts(s[..k])|;
    forall i | 0 <= i < |starts|
      ensures LineStarts(s)[i] <= Bytes(s[..k]) <==> i < n
    {
      if i < n {
        assert starts[i] == CharStarts(s[..k])[i] <= |s[..k]|;
        if starts[i] < k {
          PrefixGrows(s, starts[i], k);
        }
      } else {
        PrefixGrows(s, k, starts[i]);
      }
    }
    var v := PartitionPoint(LineStarts(s), Bytes(s[..k]));
    assert v < |starts| ==> (LineStarts(s)[v] <= Bytes(s[..k]) <==> v < n);
    assert v > 0 ==> (LineStarts(s)[v - 1] <= Bytes(s[..k]) <==> v - 1 < n);
  }

  /** `byte_to_position`; None where slicing the text would panic. */
  function ByteToPosition(source: string, lineStarts: seq<nat>, byte: nat): Option<Position> {
    var n := PartitionPoint(lineStarts, byte);
    var line := if n == 0 then 0 else n - 1;
    if line >= |lineStarts| then None
    else match IndexOf(source, lineStarts[line])
      case None => None
      case Some(i) => match IndexOf(source, byte)
        case None => None
        case Some(k) => if i <= k then Some(Position(Clamp(line), Clamp(Units(source[i..k])))) else None
  }

  /* What a position means. */

  /** The row of character `k`, the character its row starts at, and its column in UTF-16 units. */
  function Row(s: string, k: nat): nat
    requires k <= |s|
  {
    |CharStarts(s[..k])| - 1
  }

  function RowStart(s: string, k: nat): (r: nat)
    requires k <= |s|
    ensures r <= k
  {
    CharStarts(s[..k])[Row(s, k)]
  }

  function Column(s: string, k: nat): nat
    requires k <= |s|
  {
    Units(s[RowStart(s, k)..k])
  }

  function At(s: string, k: nat): Position
    requires k <= |s|
  {
    Position(Row(s, k), Column(s, k))
  }

  /** Rows count newlines, and a row starts right after one, with none up to the character. */
  lemma {:induction false} RowsAreLines(s: string, k: nat)
    requires k <= |s|
    ensures Row(s, k) == Newlines(s[..k])
    ensures RowStart(s, k) == 0 || s[RowStart(s, k) - 1] == '\n'
    ensures forall i :: RowStart(s, k) <= i < k ==> s[i] != '\n'
    decreases k
  {
    if k > 0 {
      assert s[..k][..k - 1] == s[..k - 1];
      RowsAreLines(s, k - 1);
    }
  }

  function Newlines(s: string): nat {
    if s == "" then 0 else Newlines(s[..|s| - 1]) + if s[|s| - 1] == '\n' then 1 else 0
  }

  /** The index finds the row of a character, and where that row starts. */
  lemma RowInIndex(s: string, k: nat)
    requires k <= |s|
    ensures PartitionPoint(LineStarts(s), Bytes(s[..k])) == Row(s, k) + 1
    ensures Row(s, k) < |LineStarts(s)| && LineStarts(s)[Row(s, k)] == Bytes(s[..RowStart(s, k)])
  {
    PartitionAt(s, k);
    StartsAgree(s);
    StartsOfPrefix(s, k);
    assert CharStarts(s)[Row(s, k)] == RowStart(s, k);
  }

  /** On a character boundary `byte_to_position` gives the row and column, each the largest u32 if it does not fit. */
  lemma ByteToPositionIs(s: string, k: nat)
    requires k <= |s|
    ensures ByteToPosition(s, LineStarts(s), Bytes(s[..k])) == Some(Position(Clamp(Row(s, k)), Clamp(Column(s, k))))
    ensures var p := ByteToPosition(s, LineStarts(s), Bytes(s[..k])).value;
      && p.line == (if Row(s, k) < 0x1_0000_0000 then Row(s, k) else 0xFFFF_FFFF)
      && p.character == (if Column(s, k) < 0x1_0000_0000 then Column(s, k) else 0xFFFF_FFFF)
  {
    RowInIndex(s, k);
    IndexOfBoundary(s, RowStart(s, k));
    IndexOfBoundary(s, k);
    PositionFrom(s, LineStarts(s), Bytes(s[..k]), Row(s, k), RowStart(s, k), k);
  }

  lemma PositionFrom(s: string, starts: seq<nat>, byte: nat, row: nat, i: nat, k: nat)
    requires PartitionPoint(starts, byte) == row + 1 && row < |starts|
    requires i <= k <= |s| && IndexOf(s, starts[row]) == Some(i) && IndexOf(s, byte) == Some(k)
    ensures ByteToPosition(s, starts, byte) == Some(Position(Clamp(row), Clamp(Units(s[i..k]))))
  {
  }

  /* Back again. */

  /** The byte offset in `line` at which exactly `target` units have passed. */
  function Scan(line: string, target: nat): Option<nat> {
    if target == 0 then Some(0)
    else if line == "" || Utf16Len(line[0]) > target then None
    else match Scan(line[1..], target - Utf16Len(line[0]))
      case Some(offset) => Some(Utf8Len(line[0]) + offset)
      case None => None
  }

  function LineEnd(source: string, lineStarts: seq<nat>, line: nat): nat {
    if line + 1 < |lineStarts| then lineStarts[line + 1] else Bytes(source)
  }

  /** What `position_to_byte` computes. */
  function PositionToByte(source: string, lineStarts: seq<nat>, p: Position): Option<nat> {
    if p.line >= |lineStarts| then None
    else match IndexOf(source, lineStarts[p.line])
      case None => None
      case Some(i) => match IndexOf(source, LineEnd(source, lineStarts, p.line))
        case None => None
        case Some(j) =>
          if i > j then None
          else match Scan(source[i..j], p.character)
            case Some(offset) => Some(lineStarts[p.line] + offset)
            case None => None
  }

  /** `position_to_byte`. */
  method FindByte(source: string, lineStarts: seq<nat>, p: Position) returns (r: Option<nat>)
    ensures r == PositionToByte(source, lineStarts, p)
  {
    if p.line >= |lineStarts| {
      return None;
    }
    var i := IndexOf(source, lineStarts[p.line]);
    var j := IndexOf(source, LineEnd(source, lineStarts, p.line));
    if i.None? || j.None? || i.value > j.value {
      return None;
    }
    var line := source[i.value..j.value];
    var utf16Units, offset, n := 0, 0, 0;
    assert line[0..] == line;
    while n < |line|
      invariant n <= |line| && utf16Units <= p.character
      invariant Scan(line, p.character) == match Scan(line[n..], p.character - utf16Units)
                                           case Some(o) => Some(offset + o)
                                           case None => None
    {
      if utf16Units == p.character {
        return Some(lineStarts[p.line] + offset);
      }
      utf16Units := utf16Units + Utf16Len(line[n]);
      if utf16Units > p.character {
        return None;
      }
      assert line[n..][1..] == line[n + 1..];
      offset := offset + Utf8Len(line[n]);
      n := n + 1;
    }
    r := if utf16Units == p.character then Some(lineStarts[p.line] + offset) else None;
  }

  lemma {:induction false} ScanFinds(line: string, m: nat)
    requires m <= |line|
    ensures Scan(line, Units(line[..m])) == Some(Bytes(line[..m]))
  {
    if m > 0 {
      assert line[..m] == [line[0]] + line[1..][..m - 1];
      SumsConcat([line[0]], line[1..][..m - 1]);
      assert [line[0]][..0] == "";
      ScanFinds(line[1..], m - 1);
    }
  }

  lemma {:induction false} ScanFound(line: string, target: nat) returns (m: nat)
    requires Scan(line, target).Some?
    ensures m <= |line| && Units(line[..m]) == target && Bytes(line[..m]) == Scan(line, target).value
  {
    if target == 0 {
      m := 0;
    } else {
      m := ScanFound(line[1..], target - Utf16Len(line[0]));
      assert line[..m + 1] == [line[0]] + line[1..][..m];
      SumsConcat([line[0]], line[1..][..m]);
      assert [line[0]][..0] == "";
      m := m + 1;
    }
  }

  /** The characters a line runs from and to; its newline is part of it. */
  function LineTo(s: string, line: nat): (r: nat)
    requires line < |CharStarts(s)|
    ensures r <= |s|
  {
    if line + 1 < |CharStarts(s)| then CharStarts(s)[line + 1] else |s|
  }

  lemma {:induction false} StartsIncrease(s: string)
    ensures forall i, j :: 0 <= i < j < |CharStarts(s)| ==> CharStarts(s)[i] < CharStarts(s)[j]
    ensures CharStarts(s)[0] == 0
  {
    if s != "" {
      StartsIncrease(s[..|s| - 1]);
    }
  }

  lemma {:induction false} PositionToByteIs(s: string, p: Position)
    requires p.line < |CharStarts(s)|
    ensures CharStarts(s)[p.line] <= LineTo(s, p.line)
    ensures PositionToByte(s, LineStarts(s), p)
         == match Scan(s[CharStarts(s)[p.line]..LineTo(s, p.line)], p.character)
            case Some(o) => Some(Bytes(s[..CharStarts(s)[p.line]]) + o)
            case None => None
  {
    StartsAgree(s);
    StartsIncrease(s);
    IndexOfBoundary(s, CharStarts(s)[p.line]);
    IndexOfBoundary(s, LineTo(s, p.line));
    assert s[..|s|] == s;
  }

  /** A character's row reaches at least up to it. */
  lemma RowHolds(s: string, k: nat)
    requires k <= |s|
    ensures Row(s, k) < |CharStarts(s)| && CharStarts(s)[Row(s, k)] == RowStart(s, k) && k <= LineTo(s, Row(s, k))
  {
    StartsOfPrefix(s, k);
  }

  /** The first `m` characters of the line from `i` to `j`. */
  lemma LineCut(s: string, i: nat, j: nat, m: nat)
    requires i + m <= j <= |s|
    ensures Units(s[i..j][..m]) == Units(s[i..i + m]) && Bytes(s[i..j][..m]) == Bytes(s[i..i + m])
    ensures Bytes(s[..i + m]) == Bytes(s[..i]) + Bytes(s[i..i + m])
  {
    assert s[i..j][..m] == s[i..i + m];
    assert s[..i + m] == s[..i] + s[i..i + m];
    SumsConcat(s[..i], s[i..i + m]);
  }

  /** On its line, a character is found from the units before it. */
  lemma {:induction false} InLineIsFound(s: string, p: Position, k: nat)
    requires p.line < |CharStarts(s)| && CharStarts(s)[p.line] <= k <= LineTo(s, p.line)
    requires p.character == Units(s[CharStarts(s)[p.line]..k])
    ensures PositionToByte(s, LineStarts(s), p) == Some(Bytes(s[..k]))
  {
    var i, j := CharStarts(s)[p.line], LineTo(s, p.line);
    PositionToByteIs(s, p);
    ScanFinds(s[i..j], k - i);
    LineCut(s, i, j, k - i);
  }

  /** And nothing else is found. */
  lemma {:induction false} FoundInLine(s: string, p: Position) returns (k: nat)
    requires p.line < |CharStarts(s)| && PositionToByte(s, LineStarts(s), p).Some?
    ensures CharStarts(s)[p.line] <= k <= LineTo(s, p.line) && p.character == Units(s[CharStarts(s)[p.line]..k])
    ensures PositionToByte(s, LineStarts(s), p).value == Bytes(s[..k])
  {
    PositionToByteIs(s, p);
    var i, j := CharStarts(s)[p.line], LineTo(s, p.line);
    var m := ScanFound(s[i..j], p.character);
    LineCut(s, i, j, m);
    k := i + m;
  }

  /** Every character boundary is found again from its position. */
  lemma PositionRoundTrip(s: string, k: nat)
    requires k <= |s|
    ensures PositionToByte(s, LineStarts(s), At(s, k)) == Some(Bytes(s[..k]))
  {
    RowHolds(s, k);
    InLineIsFound(s, At(s, k), k);
  }

  /** Through the u32 positions the round trip needs the row and the column to fit. */
  lemma BytePositionRoundTrip(s: string, k: nat)
    requires k <= |s| && Row(s, k) <= U32_MAX && Column(s, k) <= U32_MAX
    ensures var p := ByteToPosition(s, LineStarts(s), Bytes(s[..k]));
      p.Some? && PositionToByte(s, LineStarts(s), p.value) == Some(Bytes(s[..k]))
  {
    ByteToPositionIs(s, k);
    PositionRoundTrip(s, k);
  }

  /** The one position that is not a boundary's own: just after a line's newline, which is the next line's start. */
  ghost predicate EndOfLineAlias(s: string, p: Position, k: nat) {
    && p.line + 1 < |CharStarts(s)| && k == CharStarts(s)[p.line + 1]
    && CharStarts(s)[p.line] <= k && p.character == Units(s[CharStarts(s)[p.line]..k])
  }

  /** Where a position is: at the boundary whose position it is, or whose alias. */
  ghost predicate Found(s: string, p: Position, k: nat)
    requires k <= |s|
  {
    p == At(s, k) || EndOfLineAlias(s, p, k)
  }

  ghost predicate InRow(s: string, p: Position, k: nat)
    requires k <= |s|
  {
    && p.line < |CharStarts(s)| && CharStarts(s)[p.line] <= k <= LineTo(s, p.line)
    && p.character == Units(s[CharStarts(s)[p.line]..k])
  }

  lemma FoundIsInRow(s: string, p: Position, k: nat)
    requires k <= |s|
    ensures Found(s, p, k) <==> InRow(s, p, k)
  {
    if p == At(s, k) {
      RowHolds(s, k);
    }
    if InRow(s, p, k) {
      AtOrAlias(s, p, k);
    }
  }

  /** A position is found exactly if it is some boundary's, or the alias of a line's start. */
  lemma PositionFoundIff(s: string, p: Position, k: nat)
    requires k <= |s|
    ensures PositionToByte(s, LineStarts(s), p) == Some(Bytes(s[..k])) <==> Found(s, p, k)
  {
    FoundIsInRow(s, p, k);
    if InRow(s, p, k) {
      InLineIsFound(s, p, k);
    } else if PositionToByte(s, LineStarts(s), p) == Some(Bytes(s[..k])) {
      FoundIsBoundary(s, p, k);
    }
  }

  lemma FoundIsBoundary(s: string, p: Position, k: nat)
    requires k <= |s| && PositionToByte(s, LineStarts(s), p) == Some(Bytes(s[..k]))
    ensures Found(s, p, k)
  {
    FoundLineExists(s, p);
    var found := FoundInLine(s, p);
    SameBytes(s, found, k);
    AtOrAlias(s, p, k);
  }

  lemma FoundLineExists(s: string, p: Position)
    requires PositionToByte(s, LineStarts(s), p).Some?
    ensures p.line < |CharStarts(s)|
  {
    StartsAgree(s);
  }

  lemma {:induction false} AtOrAlias(s: string, p: Position, k: nat)
    requires p.line < |CharStarts(s)| && CharStarts(s)[p.line] <= k <= LineTo(s, p.line)
    requires p.character == Units(s[CharStarts(s)[p.line]..k])
    ensures Found(s, p, k)
  {
    if p.line + 1 == |CharStarts(s)| || k < CharStarts(s)[p.line + 1] {
      RowOfLine(s, p.line, k);
      assert Column(s, k) == p.character;
    } else {
      assert EndOfLineAlias(s, p, k);
    }
  }

  lemma SameBytes(s: string, i: nat, k: nat)
    requires i <= |s| && k <= |s| && Bytes(s[..i]) == Bytes(s[..k])
    ensures i == k
  {
    IndexOfBoundary(s, i);
    IndexOfBoundary(s, k);
  }

  /** The characters from a line's start up to the next line's start are in its row. */
  lemma RowOfLine(s: string, line: nat, k: nat)
    requires line < |CharStarts(s)| && CharStarts(s)[line] <= k <= |s|
    requires line + 1 < |CharStarts(s)| ==> k < CharStarts(s)[line + 1]
    ensures Row(s, k) == line && RowStart(s, k) == CharStarts(s)[line]
  {
    StartsOfPrefix(s, k);
    StartsIncrease(s);
    var n := |CharStarts(s[..k])|;
    assert forall i :: 0 <= i < n ==> CharStarts(s)[i] == CharStarts(s[..k])[i] <= |s[..k]|;
  }

  predicate Earlier(p: Position, q: Position) {
    p.line < q.line || (p.line == q.line && p.character < q.character)
  }

  /** Later characters have later positions. */
  lemma PositionsIncrease(s: string, j: nat, k: nat)
    requires j < k <= |s|
    ensures Earlier(At(s, j), At(s, k))
  {
    StartsOfPrefix(s[..k], j);
    assert s[..k][..j] == s[..j];
    if Row(s, j) == Row(s, k) {
      assert RowStart(s, j) == RowStart(s, k);
      var i := RowStart(s, j);
      assert s[i..k][..j - i] == s[i..j] && s[i..k][..k - i] == s[i..k];
      PrefixGrows(s[i..k], j - i, k - i);
    }
  }

  /* Points: row and byte column, as the incremental parser counts. */

  datatype Point = Point(row: nat, column: nat)

  /** `byte_point`, from an index. */
  function BytePoint(lineStarts: seq<nat>, byte: nat): Option<Point> {
    var n := PartitionPoint(lineStarts, byte);
    var row := if n == 0 then 0 else n - 1;
    if row < |lineStarts| && lineStarts[row] <= byte then Some(Point(row, byte - lineStarts[row])) else None
  }

  /** `rfind` of a newline, as the character after it. */
  function AfterLastNewline(s: string): (i: nat)
    ensures i <= |s|
  {
    if s == "" then 0 else if s[|s| - 1] == '\n' then |s| else AfterLastNewline(s[..|s| - 1])
  }

  /** `byte_point_in`, from the text. */
  function BytePointIn(source: string, byte: nat): Option<Point> {
    match IndexOf(source, byte)
    case None => None
    case Some(k) =>
      var lineStart := Bytes(source[..k][..AfterLastNewline(source[..k])]);
      if lineStart <= byte then Some(Point(Newlines(source[..k]), byte - lineStart)) else None
  }

  lemma {:induction false} LastStart(s: string)
    ensures CharStarts(s)[|CharStarts(s)| - 1] == AfterLastNewline(s) && |CharStarts(s)| == Newlines(s) + 1
  {
    if s != "" {
      LastStart(s[..|s| - 1]);
    }
  }

  lemma BytePointIs(s: string, k: nat)
    requires k <= |s|
    ensures Bytes(s[..RowStart(s, k)]) <= Bytes(s[..k])
    ensures BytePoint(LineStarts(s), Bytes(s[..k])) == Some(Point(Row(s, k), Bytes(s[..k]) - Bytes(s[..RowStart(s, k)])))
  {
    RowInIndex(s, k);
    if RowStart(s, k) < k {
      PrefixGrows(s, RowStart(s, k), k);
    }
    PointFrom(LineStarts(s), Bytes(s[..k]), Row(s, k));
  }

  lemma PointFrom(starts: seq<nat>, byte: nat, row: nat)
    requires PartitionPoint(starts, byte) == row + 1 && row < |starts| && starts[row] <= byte
    ensures BytePoint(starts, byte) == Some(Point(row, byte - starts[row]))
  {
  }

  lemma BytePointInIs(s: string, k: nat)
    requires k <= |s| && Bytes(s[..RowStart(s, k)]) <= Bytes(s[..k])
    ensures BytePointIn(s, Bytes(s[..k])) == Some(Point(Row(s, k), Bytes(s[..k]) - Bytes(s[..RowStart(s, k)])))
  {
    IndexOfBoundary(s, k);
    LastStart(s[..k]);
    assert s[..k][..RowStart(s, k)] == s[..RowStart(s, k)];
  }

  /** Both ways of finding a point agree, on every character boundary. */
  lemma PointsAgree(s: string, k: nat)
    requires k <= |s|
    ensures BytePointIn(s, Bytes(s[..k])) == BytePoint(LineStarts(s), Bytes(s[..k]))
    ensures BytePoint(LineStarts(s), Bytes(s[..k])).Some?
  {
    BytePointIs(s, k);
    BytePointInIs(s, k);
  }

  /** A point depends only on the text before it. */
  lemma PointOfPrefix(s: string, t: string, k: nat)
    requires k <= |s| && k <= |t| && s[..k] == t[..k]
    ensures BytePoint(LineStarts(s), Bytes(s[..k])) == BytePoint(LineStarts(t), Bytes(t[..k]))
  {
    PointsAgree(s, k);
    PointsAgree(t, k);
    IndexOfBoundary(s, k);
    IndexOfBoundary(t, k);
  }

  /* Content changes. */

  datatype Range = Range(start: Position, end: Position)

  datatype InputEdit = InputEdit(startByte: nat, oldEndByte: nat, newEndByte: nat,
                                 startPosition: Option<Point>, oldEndPosition: Option<Point>, newEndPosition: Option<Point>)

  datatype Change = Change(range: Option<Range>, text: string)

  datatype Changed = Changed(text: string, edit: Option<InputEdit>)

  /** `apply_content_change`; None for a range that is not in the text. */
  function ApplyChange(source: string, lineStarts: seq<nat>, c: Change): Option<Changed> {
    if c.range.None? then Some(Changed(c.text, None))
    else match PositionToByte(source, lineStarts, c.range.value.start)
      case None => None
      case Some(start) => match PositionToByte(source, lineStarts, c.range.value.end)
        case None => None
        case Some(end) => if start > end then None else ReplaceBytes(source, lineStarts, start, end, c.text)
  }

  function ReplaceBytes(source: string, lineStarts: seq<nat>, start: nat, end: nat, text: string): Option<Changed> {
    match IndexOf(source, start)
    case None => None
    case Some(i) => match IndexOf(source, end)
      case None => None
      case Some(j) => Some(Edited(lineStarts, start, end, source[..i] + text + source[j..], text))
  }

  /** The result with the edit that leads to it, `text` having replaced the bytes `start` to `end`. */
  function Edited(lineStarts: seq<nat>, start: nat, end: nat, result: string, text: string): Changed {
    var newEnd := start + Bytes(text);
    Changed(result, Some(InputEdit(start, end, newEnd, BytePoint(lineStarts, start), BytePoint(lineStarts, end),
                                   BytePointIn(result, newEnd))))
  }

  /** The edit that led from `s` to `t` by replacing the characters `i` to `j`, so that the new text ends at `k`, says so in
      bytes and in points: the start has the same point before and after, and the new end's point is that of a fresh
      index of the result. */
  ghost predicate Describes(e: InputEdit, s: string, i: nat, j: nat, t: string, k: nat)
    requires i <= j <= |s| && k <= |t|
  {
    && e.startByte == Bytes(s[..i]) && e.oldEndByte == Bytes(s[..j]) && e.newEndByte == Bytes(t[..k])
    && Bytes(t) + e.oldEndByte == Bytes(s) + e.newEndByte
    && e.startPosition.Some? && e.startPosition == BytePoint(LineStarts(t), e.startByte)
    && e.oldEndPosition.Some? && e.oldEndPosition == BytePointIn(s, e.oldEndByte)
    && e.newEndPosition.Some? && e.newEndPosition == BytePoint(LineStarts(t), e.newEndByte)
  }

  lemma {:induction false} EditDescribes(s: string, i: nat, j: nat, newText: string, t: string, k: nat)
    requires i <= j <= |s| && i <= k <= |t| && t[..i] == s[..i]
    requires Bytes(t[..k]) == Bytes(s[..i]) + Bytes(newText) && Bytes(t) + Bytes(s[..j]) == Bytes(s) + Bytes(t[..k])
    ensures Describes(Edited(LineStarts(s), Bytes(s[..i]), Bytes(s[..j]), t, newText).edit.value, s, i, j, t, k)
  {
    PointsDescribe(s, i, j, t, k, Edited(LineStarts(s), Bytes(s[..i]), Bytes(s[..j]), t, newText).edit.value);
  }

  lemma PointsDescribe(s: string, i: nat, j: nat, t: string, k: nat, e: InputEdit)
    requires i <= j <= |s| && i <= k <= |t| && t[..i] == s[..i]
    requires e.startByte == Bytes(s[..i]) && e.oldEndByte == Bytes(s[..j]) && e.newEndByte == Bytes(t[..k])
    requires Bytes(t) + e.oldEndByte == Bytes(s) + e.newEndByte
    requires e.startPosition == BytePoint(LineStarts(s), e.startByte)
    requires e.oldEndPosition == BytePoint(LineStarts(s), e.oldEndByte)
    requires e.newEndPosition == BytePointIn(t, e.newEndByte)
    ensures Describes(e, s, i, j, t, k)
  {
    PointsAgree(s, j);
    SamePoint(s, t, i);
    PointsAgree(t, k);
  }

  lemma ReplacedBytes(s: string, lineStarts: seq<nat>, i: nat, j: nat, newText: string)
    requires i <= |s| && j <= |s|
    ensures ReplaceBytes(s, lineStarts, Bytes(s[..i]), Bytes(s[..j]), newText)
         == Some(Edited(lineStarts, Bytes(s[..i]), Bytes(s[..j]), s[..i] + newText + s[j..], newText))
  {
    IndexOfBoundary(s, i);
    IndexOfBoundary(s, j);
  }

  lemma SamePoint(s: string, t: string, i: nat)
    requires i <= |s| && i <= |t| && t[..i] == s[..i]
    ensures BytePoint(LineStarts(s), Bytes(s[..i])).Some?
    ensures BytePoint(LineStarts(s), Bytes(s[..i])) == BytePoint(LineStarts(t), Bytes(s[..i]))
  {
    PointsAgree(s, i);
    PointOfPrefix(s, t, i);
  }

  lemma ResultBytes(s: string, i: nat, j: nat, newText: string)
    requires i <= j <= |s|
    ensures var t := s[..i] + newText + s[j..];
      && t[..i] == s[..i]
      && Bytes(t[..i + |newText|]) == Bytes(s[..i]) + Bytes(newText)
      && Bytes(t) + Bytes(s[..j]) == Bytes(s) + Bytes(t[..i + |newText|])
  {
    var t := s[..i] + newText + s[j..];
    assert t[..i + |newText|] == s[..i] + newText;
    SumsConcat(s[..i], newText);
    SumsConcat(s[..i] + newText, s[j..]);
    assert s == s[..j] + s[j..];
    SumsConcat(s[..j], s[j..]);
  }

  /** A change whose two positions are found replaces exactly the characters between them. */
  lemma ChangeIsExact(s: string, c: Change, i: nat, j: nat)
    requires i <= |s| && j <= |s| && c.range.Some?
    requires Found(s, c.range.value.start, i) && Found(s, c.range.value.end, j)
    ensures var r := ApplyChange(s, LineStarts(s), c);
      && (r.Some? <==> i <= j)
      && (i <= j ==> r.value.text == s[..i] + c.text + s[j..]
                     && r.value.edit.Some? && Describes(r.value.edit.value, s, i, j, r.value.text, i + |c.text|))
  {
    PositionFoundIff(s, c.range.value.start, i);
    PositionFoundIff(s, c.range.value.end, j);
    ApplyFound(s, LineStarts(s), c, Bytes(s[..i]), Bytes(s[..j]));
    BytesOrdered(s, i, j);
    if i <= j {
      ReplacedBytes(s, LineStarts(s), i, j, c.text);
      ResultBytes(s, i, j, c.text);
      EditDescribes(s, i, j, c.text, s[..i] + c.text + s[j..], i + |c.text|);
    }
  }

  lemma ApplyFound(s: string, lineStarts: seq<nat>, c: Change, start: nat, end: nat)
    requires c.range.Some? && PositionToByte(s, lineStarts, c.range.value.start) == Some(start)
    requires PositionToByte(s, lineStarts, c.range.value.end) == Some(end)
    ensures ApplyChange(s, lineStarts, c) == if start > end then None else ReplaceBytes(s, lineStarts, start, end, c.text)
  {
  }

  lemma BytesOrdered(s: string, i: nat, j: nat)
    requires i <= |s| && j <= |s|
    ensures i <= j <==> Bytes(s[..i]) <= Bytes(s[..j])
  {
    if i < j {
      PrefixGrows(s, i, j);
    } else if j < i {
      PrefixGrows(s, j, i);
    }
  }

  /** A change is refused exactly if one of its positions is nowhere in the text or they are in the wrong order. */
  lemma ChangeRefusedIff(s: string, c: Change)
    ensures ApplyChange(s, LineStarts(s), c).None? <==>
      c.range.Some?
      && (forall i, j :: 0 <= i <= j <= |s| ==> !(Found(s, c.range.value.start, i) && Found(s, c.range.value.end, j)))
  {
    if c.range.Some? {
      if ApplyChange(s, LineStarts(s), c).Some? {
        var i, j := AppliedWhereFound(s, c);
      }
      forall i, j | 0 <= i <= j <= |s| && Found(s, c.range.value.start, i) && Found(s, c.range.value.end, j)
        ensures ApplyChange(s, LineStarts(s), c).Some?
      {
        ChangeIsExact(s, c, i, j);
      }
    }
  }

  lemma AppliedWhereFound(s: string, c: Change) returns (i: nat, j: nat)
    requires c.range.Some? && ApplyChange(s, LineStarts(s), c).Some?
    ensures i <= j <= |s| && Found(s, c.range.value.start, i) && Found(s, c.range.value.end, j)
  {
    i, j := AppliedPlaces(s, LineStarts(s), c);
    FoundIsBoundary(s, c.range.value.start, i);
    FoundIsBoundary(s, c.range.value.end, j);
    BytesOrdered(s, i, j);
  }

  lemma AppliedPlaces(s: string, lineStarts: seq<nat>, c: Change) returns (i: nat, j: nat)
    requires c.range.Some? && ApplyChange(s, lineStarts, c).Some?
    ensures i <= |s| && PositionToByte(s, lineStarts, c.range.value.start) == Some(Bytes(s[..i]))
    ensures j <= |s| && PositionToByte(s, lineStarts, c.range.value.end) == Some(Bytes(s[..j]))
    ensures Bytes(s[..i]) <= Bytes(s[..j])
  {
    i := IndexOf(s, PositionToByte(s, lineStarts, c.range.value.start).value).value;
    j := IndexOf(s, PositionToByte(s, lineStarts, c.range.value.end).value).value;
  }

  /* A batch of changes (`_did_change`). */

  datatype Batch = Batch(text: string, incremental: bool)

  /** Each change applies to the text the ones before it left; one that does not apply drops the whole batch. */
  function ApplyBatch(source: string, changes: seq<Change>): Option<Batch> {
    if changes == [] then Some(Batch(source, true))
    else match ApplyBatch(source, changes[..|changes| - 1])
      case None => None
      case Some(b) =>
        match ApplyChange(b.text, LineStarts(b.text), changes[|changes| - 1])
        case None => None
        case Some(changed) => Some(Batch(changed.text, b.incremental && changed.edit.Some?))
  }

  /** The loop of `_did_change`: every change is read against an index of the text it applies to. */
  method DidChange(source0: string, lineIndex0: seq<nat>, changes: seq<Change>) returns (r: Option<Batch>)
    requires lineIndex0 == LineStarts(source0)
    ensures r == ApplyBatch(source0, changes)
  {
    var source, lineIndex, priorTreeValid := source0, lineIndex0, true;
    for n := 0 to |changes|
      invariant lineIndex == LineStarts(source)
      invariant ApplyBatch(source0, changes[..n]) == Some(Batch(source, priorTreeValid))
    {
      assert changes[..n + 1][..n] == changes[..n];
      var changed := ApplyChange(source, lineIndex, changes[n]);
      if changed.None? {
        BatchStaysDropped(source0, changes, n + 1);
        return None;
      }
      if changed.value.edit.None? {
        priorTreeValid := false;
      }
      lineIndex := New(changed.value.text);
      source := changed.value.text;
    }
    assert changes[..|changes|] == changes;
    r := Some(Batch(source, priorTreeValid));
  }

  lemma {:induction false} BatchStaysDropped(source: string, changes: seq<Change>, n: nat)
    requires n <= |changes| && ApplyBatch(source, changes[..n]).None?
    ensures ApplyBatch(source, changes).None?
    decreases |changes|
  {
    if n < |changes| {
      assert changes[..|changes| - 1][..n] == changes[..n];
      BatchStaysDropped(source, changes[..|changes| - 1], n);
    } else {
      assert changes[..n] == changes;
    }
  }

  /* What a batch comes to, for anything that single changes may do. */

  function FoldChanges(step: (string, Change) -> Option<Changed>, source: string, changes: seq<Change>): Option<Batch> {
    if changes == [] then Some(Batch(source, true))
    else match FoldChanges(step, source, changes[..|changes| - 1])
      case None => None
      case Some(b) =>
        match step(b.text, changes[|changes| - 1])
        case None => None
        case Some(changed) => Some(Batch(changed.text, b.incremental && changed.edit.Some?))
  }

  function ChangeOn(s: string, c: Change): Option<Changed> {
    ApplyChange(s, LineStarts(s), c)
  }

  lemma {:induction false} BatchIsFold(source: string, changes: seq<Change>)
    ensures ApplyBatch(source, changes) == FoldChanges(ChangeOn, source, changes)
    decreases |changes|
  {
    if changes != [] {
      BatchIsFold(source, changes[..|changes| - 1]);
    }
  }

  /** A change without a range gives its own text whatever it is applied to, and no edit; one with a range has an edit. */
  ghost predicate Replaces(step: (string, Change) -> Option<Changed>) {
    forall s: string, c: Change ::
      && (c.range.None? ==> step(s, c) == Some(Changed(c.text, None)))
      && (c.range.Some? && step(s, c).Some? ==> step(s, c).value.edit.Some?)
  }

  lemma ChangeReplaces()
    ensures Replaces(ChangeOn)
  {
  }

  lemma {:induction false} FoldForgets(step: (string, Change) -> Option<Changed>, source: string, changes: seq<Change>, k: nat)
    requires Replaces(step) && k < |changes| && changes[k].range.None? && FoldChanges(step, source, changes[..k]).Some?
    ensures var rest := FoldChanges(step, changes[k].text, changes[k + 1..]);
      && (FoldChanges(step, source, changes).Some? <==> rest.Some?)
      && (rest.Some? ==> FoldChanges(step, source, changes).value.text == rest.value.text)
    decreases |changes|
  {
    var n := |changes| - 1;
    if k == n {
      assert changes[k + 1..] == [];
    } else {
      assert changes[..n][..k] == changes[..k];
      assert changes[k + 1..][..n - k - 1] == changes[..n][k + 1..];
      FoldForgets(step, source, changes[..n], k);
    }
  }

  lemma {:induction false} FoldIncrementalIff(step: (string, Change) -> Option<Changed>, source: string, changes: seq<Change>)
    requires Replaces(step) && FoldChanges(step, source, changes).Some?
    ensures FoldChanges(step, source, changes).value.incremental <==> forall k :: 0 <= k < |changes| ==> changes[k].range.Some?
    decreases |changes|
  {
    if changes != [] {
      FoldIncrementalIff(step, source, changes[..|changes| - 1]);
    }
  }

  /** A change without a range replaces the whole document, and everything before it in the batch: a batch that gets past
      it ends as the rest of the batch does on its text. */
  lemma ReplacementForgets(source: string, changes: seq<Change>, k: nat)
    requires k < |changes| && changes[k].range.None? && ApplyBatch(source, changes[..k]).Some?
    ensures var rest := ApplyBatch(changes[k].text, changes[k + 1..]);
      && (ApplyBatch(source, changes).Some? <==> rest.Some?)
      && (rest.Some? ==> ApplyBatch(source, changes).value.text == rest.value.text)
  {
    ChangeReplaces();
    BatchIsFold(source, changes[..k]);
    BatchIsFold(source, changes);
    BatchIsFold(changes[k].text, changes[k + 1..]);
    FoldForgets(ChangeOn, source, changes, k);
  }

  /** The previous tree stays valid exactly if every change of the batch has a range. */
  lemma IncrementalIff(source: string, changes: seq<Change>)
    requires ApplyBatch(source, changes).Some?
    ensures ApplyBatch(source, changes).value.incremental <==> forall k :: 0 <= k < |changes| ==> changes[k].range.Some?
  {
    ChangeReplaces();
    BatchIsFold(source, changes);
    FoldIncrementalIff(ChangeOn, source, changes);
  }
}
