/**
 * The diagnostic parser, the code-window extractor and the routing decision of
 * `XcodeHelper` (src/xcode_helper.py).
 *
 * `clean_xcode_error` searches the text for the compiler's layout
 * `path:line:column: error|warning: message` (the regular expression
 * `([\w/\.\-]+):(\d+):(\d+): (error|warning): (.*)`), taking the leftmost match.
 * The regular expression is modelled directly: at a given start, the path is the
 * maximal run of path characters (none of which is `:`), line and column the
 * maximal runs of digits, and the message runs to the end of the line.
 */
module XcodeHelper {
  import opened Wrappers
  import opened PyStr

  /** `\w` restricted to ASCII: letters, digits and underscore. */
  predicate IsWordChar(c: char)
  {
    'a' <= c <= 'z' || 'A' <= c <= 'Z' || IsDigit(c) || c == '_'
  }

  /** The character class `[\w/\.\-]`. */
  predicate IsPathChar(c: char)
  {
    IsWordChar(c) || c == '/' || c == '.' || c == '-'
  }

  /** The end of the longest run of path characters starting at `i`. */
  function PathRunEnd(s: string, i: nat): (e: nat)
    requires i <= |s|
    ensures i <= e <= |s|
    ensures forall j :: i <= j < e ==> IsPathChar(s[j])
    ensures e == |s| || !IsPathChar(s[e])
    decreases |s| - i
  {
    if i < |s| && IsPathChar(s[i]) then PathRunEnd(s, i + 1) else i
  }

  /** The end of the longest run of digits starting at `i`. */
  function DigitRunEnd(s: string, i: nat): (e: nat)
    requires i <= |s|
    ensures i <= e <= |s|
    ensures forall j :: i <= j < e ==> IsDigit(s[j])
    ensures e == |s| || !IsDigit(s[e])
    decreases |s| - i
  {
    if i < |s| && IsDigit(s[i]) then DigitRunEnd(s, i + 1) else i
  }

  /** The end of the line that contains index `i`: what `.*` matches up to. */
  function LineEnd(s: string, i: nat): (e: nat)
    requires i <= |s|
    ensures i <= e <= |s|
    ensures forall j :: i <= j < e ==> s[j] != '\n'
    ensures e == |s| || s[e] == '\n'
    decreases |s| - i
  {
    if i < |s| && s[i] != '\n' then LineEnd(s, i + 1) else i
  }

  /** The five groups of a match, and where it starts. */
  datatype Diagnostic = Diagnostic(start: nat, path: string, line: string, column: string, kind: string, message: string)

  /** The text a match covers. */
  function Covered(d: Diagnostic): string
  {
    d.path + ":" + d.line + ":" + d.column + ": " + d.kind + ": " + d.message
  }

  /** The group `(error|warning)` followed by `: ` at index `k`. */
  function KindAt(s: string, k: nat): (r: Option<string>)
    ensures r.Some? ==> (r.value == "error" || r.value == "warning") && StartsAt(s, r.value + ": ", k)
    ensures r.None? ==> !StartsAt(s, "error: ", k) && !StartsAt(s, "warning: ", k)
  {
    if StartsAt(s, "error: ", k) then
      assert "error" + ": " == "error: ";
      Some("error")
    else if StartsAt(s, "warning: ", k) then
      assert "warning" + ": " == "warning: ";
      Some("warning")
    else None
  }

  /**
   * Where the groups of a match end: the path at `pe` (a `:` follows), the line at `le`
   * (a `:` follows), the column at `ce` (`: ` follows), then the kind and `: `, and the
   * message at `me`.
   */
  datatype Bounds = Bounds(pe: nat, le: nat, ce: nat, kind: string, me: nat)
  {
    /** Where the message starts. */
    function MessageStart(): nat
    {
      MessageStartAfter(ce, kind)
    }
  }

  /** The message starts after the column's `: `, the kind and its `: `. */
  function MessageStartAfter(ce: nat, kind: string): nat
  {
    ce + 2 + |kind| + 2
  }

  /**
   * The separators sit where `b` says: `:` after the path and after the line, `: ` after
   * the column, the kind (`error` or `warning`) and `: ` after that, and the message
   * ends at the end of the text or at a line break.
   */
  predicate Framed(s: string, i: nat, b: Bounds)
  {
    i < b.pe < b.le < b.ce && b.MessageStart() <= b.me <= |s| &&
    s[b.pe] == ':' && s[b.le] == ':' && StartsAt(s, ": ", b.ce) && StartsAt(s, b.kind + ": ", b.ce + 2) &&
    (b.kind == "error" || b.kind == "warning") &&
    (b.me == |s| || s[b.me] == '\n')
  }

  /** The positions a match of the pattern starting exactly at `i` reaches, if there is one: path and line here. */
  function ScanAt(s: string, i: nat): (r: Option<Bounds>)
    requires i <= |s|
    ensures r.Some? ==> Framed(s, i, r.value)
  {
    var pe := PathRunEnd(s, i);
    if pe == i || pe == |s| || s[pe] != ':' then None
    else ScanLine(s, i, pe)
  }

  /** The scan once the path has been read up to its `:`: a nonempty line run ending at `:`. */
  function ScanLine(s: string, i: nat, pe: nat): (r: Option<Bounds>)
    requires i < pe < |s| && s[pe] == ':'
    ensures r.Some? ==> Framed(s, i, r.value)
  {
    ScanLineTo(s, i, pe, DigitRunEnd(s, pe + 1))
  }

  /** The line run has been read up to `le`: it must be nonempty and followed by `:`. */
  function ScanLineTo(s: string, i: nat, pe: nat, le: nat): (r: Option<Bounds>)
    requires i < pe < le <= |s| && s[pe] == ':'
    ensures r.Some? ==> Framed(s, i, r.value)
  {
    if le == pe + 1 || le == |s| || s[le] != ':' then None
    else ScanTail(s, i, pe, le)
  }

  /** The rest of the scan, once path and line have been read: column, then kind and message. */
  function ScanTail(s: string, i: nat, pe: nat, le: nat): (r: Option<Bounds>)
    requires i < pe < le < |s| && s[pe] == ':' && s[le] == ':'
    ensures r.Some? ==> Framed(s, i, r.value)
  {
    ScanColumn(s, i, pe, le, DigitRunEnd(s, le + 1))
  }

  /** The column run has been read up to `ce`: it must be nonempty and followed by `: `. */
  function ScanColumn(s: string, i: nat, pe: nat, le: nat, ce: nat): (r: Option<Bounds>)
    requires i < pe < le < ce <= |s| && s[pe] == ':' && s[le] == ':'
    ensures r.Some? ==> Framed(s, i, r.value)
  {
    if ce == le + 1 || !StartsAt(s, ": ", ce) then None
    else
      var r := ScanKind(s, pe, le, ce);
      if r.Some? then ScanKindFramed(s, i, pe, le, ce); r else r
  }

  /** The end of the scan, once the column has been read: kind and message. */
  function ScanKind(s: string, pe: nat, le: nat, ce: nat): Option<Bounds>
    requires ce <= |s|
  {
    match KindAt(s, ce + 2)
    case None => None
    case Some(kind) => Some(Bounds(pe, le, ce, kind, LineEnd(s, MessageStartAfter(ce, kind))))
  }

  /** What `ScanKind` finds after separators in place is framed. */
  lemma {:induction false} ScanKindFramed(s: string, i: nat, pe: nat, le: nat, ce: nat)
    requires i < pe < le < ce <= |s| && s[pe] == ':' && s[le] == ':' && StartsAt(s, ": ", ce)
    requires ScanKind(s, pe, le, ce).Some?
    ensures Framed(s, i, ScanKind(s, pe, le, ce).value)
  {
    FramedAt(s, i, ScanKind(s, pe, le, ce).value);
  }

  /** Bounds whose separators are in place, found by the scan, are framed. */
  lemma {:induction false} FramedAt(s: string, i: nat, b: Bounds)
    requires i < b.pe < b.le < b.ce && b.MessageStart() <= |s|
    requires s[b.pe] == ':' && s[b.le] == ':' && StartsAt(s, ": ", b.ce)
    requires (b.kind == "error" || b.kind == "warning") && StartsAt(s, b.kind + ": ", b.ce + 2)
    requires b.me == LineEnd(s, b.MessageStart())
    ensures Framed(s, i, b)
  {
  }

  /** Between the separators a match has path characters, digits, digits, and no line break. */
  lemma {:induction false} ScanAtRuns(s: string, i: nat)
    requires i <= |s| && ScanAt(s, i).Some?
    ensures var b := ScanAt(s, i).value;
      (forall j :: i <= j < b.pe ==> IsPathChar(s[j])) &&
      (forall j :: b.pe + 1 <= j < b.le ==> IsDigit(s[j])) &&
      (forall j :: b.le + 1 <= j < b.ce ==> IsDigit(s[j])) &&
      (forall j :: b.MessageStart() <= j < b.me ==> s[j] != '\n')
  {
  }

  /** The five groups between the bounds. */
  function GroupsOf(s: string, i: nat, b: Bounds): Diagnostic
    requires Framed(s, i, b)
  {
    Diagnostic(i, s[i..b.pe], s[b.pe + 1..b.le], s[b.le + 1..b.ce], b.kind, s[b.MessageStart()..b.me])
  }

  /** A match of the pattern starting exactly at `i`, if there is one: the text between the bounds. */
  function MatchAt(s: string, i: nat): Option<Diagnostic>
    requires i <= |s|
  {
    match ScanAt(s, i)
    case None => None
    case Some(b) => Some(GroupsOf(s, i, b))
  }

  /** A slice is its two halves side by side. */
  lemma {:induction false} SliceSplit(s: string, a: nat, b: nat, c: nat)
    requires a <= b <= c <= |s|
    ensures s[a..c] == s[a..b] + s[b..c]
  {
  }

  /**
   * What a match is: the text holds `path:line:column: kind: message` at the match's
   * start, and the message runs to the end of its line.
   */
  lemma {:induction false} MatchAtSound(s: string, i: nat)
    requires i <= |s| && MatchAt(s, i).Some?
    ensures var d := MatchAt(s, i).value; d.start == i && StartsAt(s, Covered(d), i)
    ensures var d := MatchAt(s, i).value; var e := i + |Covered(d)|; e == |s| || s[e] == '\n'
  {
    var b := ScanAt(s, i).value;
    FramedCovers(s, i, b);
  }

  /**
   * The groups of a match: a non-empty path of path characters, non-empty digit strings
   * for line and column, `error` or `warning` as kind, and a message without a line break.
   */
  lemma {:induction false} MatchAtGroups(s: string, i: nat)
    requires i <= |s| && MatchAt(s, i).Some?
    ensures var d := MatchAt(s, i).value; d.path != [] && forall c <- d.path :: IsPathChar(c)
    ensures var d := MatchAt(s, i).value; d.line != [] && AllDigits(d.line) && d.column != [] && AllDigits(d.column)
    ensures var d := MatchAt(s, i).value; d.kind == "error" || d.kind == "warning"
    ensures var d := MatchAt(s, i).value; '\n' !in d.message
  {
    var d := MatchAt(s, i).value;
    ScanAtRuns(s, i);
    assert forall j :: 0 <= j < |d.path| ==> d.path[j] == s[i + j];
  }

  /** The groups of a match, laid side by side with their separators, are the text from its start to its line's end. */
  lemma {:induction false} FramedCovers(s: string, i: nat, b: Bounds)
    requires Framed(s, i, b)
    ensures s[i..b.me] == Covered(GroupsOf(s, i, b))
  {
    var d := GroupsOf(s, i, b);
    var head := d.path + ":" + d.line + ":" + d.column;
    var tail := ": " + d.kind + ": " + d.message;
    FramedHead(s, i, b);
    FramedTail(s, i, b);
    SliceSplit(s, i, b.ce, b.me);
    calc {
      Covered(d);
      head + ": " + d.kind + ": " + d.message;
      head + tail;
      s[i..b.ce] + s[b.ce..b.me];
      s[i..b.me];
    }
  }

  /** Up to the column's end a match is `path:line:column`. */
  lemma {:induction false} FramedHead(s: string, i: nat, b: Bounds)
    requires Framed(s, i, b)
    ensures var d := GroupsOf(s, i, b); s[i..b.ce] == d.path + ":" + d.line + ":" + d.column
  {
    var d := GroupsOf(s, i, b);
    SliceSplit(s, i, b.pe, b.pe + 1);
    assert s[i..b.pe + 1] == d.path + ":";
    SliceSplit(s, i, b.pe + 1, b.le);
    SliceSplit(s, i, b.le, b.le + 1);
    assert s[i..b.le + 1] == d.path + ":" + d.line + ":";
    SliceSplit(s, i, b.le + 1, b.ce);
  }

  /** From the column's end a match is `: kind: message`. */
  lemma {:induction false} FramedTail(s: string, i: nat, b: Bounds)
    requires Framed(s, i, b)
    ensures var d := GroupsOf(s, i, b); s[b.ce..b.me] == ": " + d.kind + ": " + d.message
  {
    var d := GroupsOf(s, i, b);
    var k, m := b.ce + 2, b.MessageStart();
    SliceSplit(s, b.ce, k, m);
    assert s[b.ce..m] == ": " + (d.kind + ": ");
    SliceSplit(s, b.ce, m, b.me);
  }

  /** A run of path characters that stops at `e` is the run `PathRunEnd` finds. */
  lemma {:induction false} PathRunEndAt(s: string, i: nat, e: nat)
    requires i <= e <= |s| && (forall j :: i <= j < e ==> IsPathChar(s[j]))
    requires e == |s| || !IsPathChar(s[e])
    ensures PathRunEnd(s, i) == e
    decreases e - i
  {
    if i < e {
      PathRunEndAt(s, i + 1, e);
    }
  }

  /** A run of digits that stops at `e` is the run `DigitRunEnd` finds. */
  lemma {:induction false} DigitRunEndAt(s: string, i: nat, e: nat)
    requires i <= e <= |s| && (forall j :: i <= j < e ==> IsDigit(s[j]))
    requires e == |s| || !IsDigit(s[e])
    ensures DigitRunEnd(s, i) == e
    decreases e - i
  {
    if i < e {
      DigitRunEndAt(s, i + 1, e);
    }
  }

  /** Text without a line break that stops at `e`, at a line break or the end, ends its line at `e`. */
  lemma {:induction false} LineEndAt(s: string, i: nat, e: nat)
    requires i <= e <= |s| && (forall j :: i <= j < e ==> s[j] != '\n')
    requires e == |s| || s[e] == '\n'
    ensures LineEnd(s, i) == e
    decreases e - i
  {
    if i < e {
      LineEndAt(s, i + 1, e);
    }
  }

  /**
   * The layout of a match with its runs in place: a non-empty path of path characters,
   * non-empty digit runs for line and column, and a message without a line break.
   */
  predicate Laid(s: string, i: nat, b: Bounds)
  {
    Framed(s, i, b) && b.pe + 1 < b.le && b.le + 1 < b.ce &&
    (forall j :: i <= j < b.pe ==> IsPathChar(s[j])) &&
    (forall j :: b.pe + 1 <= j < b.le ==> IsDigit(s[j])) &&
    (forall j :: b.le + 1 <= j < b.ce ==> IsDigit(s[j])) &&
    (forall j :: b.MessageStart() <= j < b.me ==> s[j] != '\n')
  }

  /** Wherever the layout is laid out at `i`, the scan from `i` finds exactly those bounds. */
  lemma {:induction false} ScanAtComplete(s: string, i: nat, b: Bounds)
    requires Laid(s, i, b)
    ensures ScanAt(s, i) == Some(b)
  {
    LaidRunEnds(s, i, b);
    LaidColumnEnd(s, i, b);
    LaidKindEnds(s, i, b);
    ScanKindComplete(s, b);
    ScanColumnComplete(s, i, b);
    ScanTailComplete(s, i, b);
    ScanLineToComplete(s, i, b);
    ScanLineComplete(s, i, b);
    ScanAtEnds(s, i, b);
  }

  /** The path and line runs of a laid-out match end at its bounds. */
  lemma {:induction false} LaidRunEnds(s: string, i: nat, b: Bounds)
    requires Laid(s, i, b)
    ensures PathRunEnd(s, i) == b.pe && DigitRunEnd(s, b.pe + 1) == b.le
  {
    PathRunEndAt(s, i, b.pe);
    DigitRunEndAt(s, b.pe + 1, b.le);
  }

  /** The column run of a laid-out match ends at its bound. */
  lemma {:induction false} LaidColumnEnd(s: string, i: nat, b: Bounds)
    requires Laid(s, i, b)
    ensures DigitRunEnd(s, b.le + 1) == b.ce
  {
    ColumnRunEnd(s, b.le + 1, b.ce);
  }

  /** The kind of a laid-out match is read, and its message ends at its bound. */
  lemma {:induction false} LaidKindEnds(s: string, i: nat, b: Bounds)
    requires Laid(s, i, b)
    ensures LineEnd(s, b.MessageStart()) == b.me && KindAt(s, b.ce + 2) == Some(b.kind)
  {
    LineEndAt(s, b.MessageStart(), b.me);
    KindAtComplete(s, b.ce + 2, b.kind);
  }

  /** A digit run followed by `: ` ends there. */
  lemma {:induction false} ColumnRunEnd(s: string, a: nat, e: nat)
    requires a <= e && StartsAt(s, ": ", e) && forall j :: a <= j < e ==> IsDigit(s[j])
    ensures DigitRunEnd(s, a) == e
  {
    assert s[e] == s[e..e + 2][0];
    DigitRunEndAt(s, a, e);
  }

  /** The scan reads the path run up to its `:` and hands over to `ScanLine`. */
  lemma {:induction false} ScanAtEnds(s: string, i: nat, b: Bounds)
    requires i < b.pe < |s| && s[b.pe] == ':' && PathRunEnd(s, i) == b.pe
    requires ScanLine(s, i, b.pe) == Some(b)
    ensures ScanAt(s, i) == Some(b)
  {
  }

  /** The scan reads the line run and hands over to `ScanLineTo`. */
  lemma {:induction false} ScanLineComplete(s: string, i: nat, b: Bounds)
    requires i < b.pe < b.le <= |s| && s[b.pe] == ':'
    requires DigitRunEnd(s, b.pe + 1) == b.le && ScanLineTo(s, i, b.pe, b.le) == Some(b)
    ensures ScanLine(s, i, b.pe) == Some(b)
  {
  }

  /** A nonempty line run ending at `:` hands over to `ScanTail`. */
  lemma {:induction false} ScanLineToComplete(s: string, i: nat, b: Bounds)
    requires i < b.pe < b.le < |s| && s[b.pe] == ':' && s[b.le] == ':' && b.pe + 1 < b.le
    requires ScanTail(s, i, b.pe, b.le) == Some(b)
    ensures ScanLineTo(s, i, b.pe, b.le) == Some(b)
  {
  }

  /** Once path and line are read, the rest of the scan reads the column run and hands over to `ScanColumn`. */
  lemma {:induction false} ScanTailComplete(s: string, i: nat, b: Bounds)
    requires i < b.pe < b.le < b.ce <= |s| && s[b.pe] == ':' && s[b.le] == ':'
    requires DigitRunEnd(s, b.le + 1) == b.ce && ScanColumn(s, i, b.pe, b.le, b.ce) == Some(b)
    ensures ScanTail(s, i, b.pe, b.le) == Some(b)
  {
  }

  /** A nonempty column run ending at `: ` hands over to `ScanKind`. */
  lemma {:induction false} ScanColumnComplete(s: string, i: nat, b: Bounds)
    requires i < b.pe < b.le < b.ce <= |s| && s[b.pe] == ':' && s[b.le] == ':'
    requires b.le + 1 < b.ce && StartsAt(s, ": ", b.ce) && ScanKind(s, b.pe, b.le, b.ce) == Some(b)
    ensures ScanColumn(s, i, b.pe, b.le, b.ce) == Some(b)
  {
  }

  /** Once the column is read, the scan finds the kind and the line's end. */
  lemma {:induction false} ScanKindComplete(s: string, b: Bounds)
    requires b.ce <= |s| && b.MessageStart() <= |s|
    requires KindAt(s, b.ce + 2) == Some(b.kind) && LineEnd(s, b.MessageStart()) == b.me
    ensures ScanKind(s, b.pe, b.le, b.ce) == Some(b)
  {
  }

  /** `error: ` or `warning: ` at `k` is read as that kind. */
  lemma {:induction false} KindAtComplete(s: string, k: nat, kind: string)
    requires (kind == "error" || kind == "warning") && StartsAt(s, kind + ": ", k)
    ensures KindAt(s, k) == Some(kind)
  {
    if kind == "error" {
      assert kind + ": " == "error: ";
    } else {
      assert kind + ": " == "warning: ";
      assert s[k] == s[k..k + 9][0] == 'w';
    }
  }

  /** `a + b` sits at `i` exactly when `a` does and `b` follows it. */
  lemma {:induction false} StartsAtConcat(s: string, a: string, b: string, i: nat)
    ensures StartsAt(s, a + b, i) <==> StartsAt(s, a, i) && StartsAt(s, b, i + |a|)
  {
    if StartsAt(s, a + b, i) {
      assert s[i..i + |a|] == s[i..i + |a + b|][..|a|];
      assert s[i + |a|..i + |a| + |b|] == s[i..i + |a + b|][|a|..];
    }
    if StartsAt(s, a, i) && StartsAt(s, b, i + |a|) {
      SliceSplit(s, i, i + |a|, i + |a| + |b|);
    }
  }

  /** A one-character text sits at `k` exactly when that character is `s[k]`. */
  lemma {:induction false} StartsAtChar(s: string, c: char, k: nat)
    requires StartsAt(s, [c], k)
    ensures k < |s| && s[k] == c
  {
    assert s[k] == s[k..k + 1][0];
  }

  /** The bounds of the groups of `d` laid out from `d.start`. */
  function BoundsOf(d: Diagnostic): Bounds
  {
    var pe := d.start + |d.path|;
    var le := pe + 1 + |d.line|;
    var ce := le + 1 + |d.column|;
    Bounds(pe, le, ce, d.kind, ce + 2 + |d.kind| + 2 + |d.message|)
  }

  /**
   * The converse of `MatchAtSound` and `MatchAtGroups`: wherever the text holds
   * `path:line:column: kind: message` with groups of the pattern's shape, and the message
   * runs to the end of its line, the pattern matches there with exactly those groups.
   */
  lemma {:induction false} MatchAtComplete(s: string, d: Diagnostic)
    requires StartsAt(s, Covered(d), d.start)
    requires d.path != [] && forall c <- d.path :: IsPathChar(c)
    requires d.line != [] && AllDigits(d.line) && d.column != [] && AllDigits(d.column)
    requires d.kind == "error" || d.kind == "warning"
    requires '\n' !in d.message
    requires var e := d.start + |Covered(d)|; e == |s| || s[e] == '\n'
    ensures MatchAt(s, d.start) == Some(d)
  {
    var b := BoundsOf(d);
    CoveredParts(s, d);
    PartsFramed(s, d);
    PartsLaid(s, d);
    ScanAtComplete(s, d.start, b);
    PartsGroups(s, d);
  }

  /** The separators of `d` in place frame its bounds. */
  lemma {:induction false} PartsFramed(s: string, d: Diagnostic)
    requires var b := BoundsOf(d);
      StartsAt(s, ":", b.pe) && StartsAt(s, ":", b.le) && StartsAt(s, ": ", b.ce) &&
      StartsAt(s, d.kind + ": ", b.ce + 2) && StartsAt(s, d.message, b.MessageStart())
    requires d.path != [] && (d.kind == "error" || d.kind == "warning")
    requires var e := BoundsOf(d).me; e == |s| || s[e] == '\n'
    ensures Framed(s, d.start, BoundsOf(d))
  {
    var b := BoundsOf(d);
    StartsAtChar(s, ':', b.pe);
    StartsAtChar(s, ':', b.le);
  }

  /** Groups of the pattern's shape in place lay the runs out. */
  lemma {:induction false} PartsLaid(s: string, d: Diagnostic)
    requires Framed(s, d.start, BoundsOf(d))
    requires var b := BoundsOf(d);
      StartsAt(s, d.path, d.start) && StartsAt(s, d.line, b.pe + 1) &&
      StartsAt(s, d.column, b.le + 1) && StartsAt(s, d.message, b.MessageStart())
    requires d.path != [] && forall c <- d.path :: IsPathChar(c)
    requires d.line != [] && AllDigits(d.line) && d.column != [] && AllDigits(d.column)
    requires '\n' !in d.message
    ensures Laid(s, d.start, BoundsOf(d))
  {
    var b := BoundsOf(d);
    PathCharsAt(s, d.path, d.start);
    DigitsAt(s, d.line, b.pe + 1);
    DigitsAt(s, d.column, b.le + 1);
    NoBreakAt(s, d.message, b.MessageStart());
  }

  /** Path characters sitting at `a` make a run of path characters there. */
  lemma {:induction false} PathCharsAt(s: string, t: string, a: nat)
    requires StartsAt(s, t, a) && forall c <- t :: IsPathChar(c)
    ensures forall j :: a <= j < a + |t| ==> IsPathChar(s[j])
  {
    StartsAtIndex(s, t, a);
  }

  /** Digits sitting at `a` make a run of digits there. */
  lemma {:induction false} DigitsAt(s: string, t: string, a: nat)
    requires StartsAt(s, t, a) && AllDigits(t)
    ensures forall j :: a <= j < a + |t| ==> IsDigit(s[j])
  {
    StartsAtIndex(s, t, a);
  }

  /** Text without a line break sitting at `a` puts none there. */
  lemma {:induction false} NoBreakAt(s: string, t: string, a: nat)
    requires StartsAt(s, t, a) && '\n' !in t
    ensures forall j :: a <= j < a + |t| ==> s[j] != '\n'
  {
    StartsAtIndex(s, t, a);
  }

  /** Text sitting at `a` gives the characters from `a` on. */
  lemma {:induction false} StartsAtIndex(s: string, t: string, a: nat)
    requires StartsAt(s, t, a)
    ensures forall j :: a <= j < a + |t| ==> s[j] == t[j - a]
  {
    forall j | a <= j < a + |t| ensures s[j] == t[j - a] {
      assert s[j] == s[a..a + |t|][j - a];
    }
  }

  /** Groups in place are the groups read between the bounds. */
  lemma {:induction false} PartsGroups(s: string, d: Diagnostic)
    requires Framed(s, d.start, BoundsOf(d))
    requires var b := BoundsOf(d);
      StartsAt(s, d.path, d.start) && StartsAt(s, d.line, b.pe + 1) &&
      StartsAt(s, d.column, b.le + 1) && StartsAt(s, d.message, b.MessageStart())
    ensures GroupsOf(s, d.start, BoundsOf(d)) == d
  {
  }

  /** Each group and separator of `Covered(d)` sits at its place in the text. */
  lemma {:induction false} CoveredParts(s: string, d: Diagnostic)
    requires StartsAt(s, Covered(d), d.start)
    ensures var b := BoundsOf(d);
      StartsAt(s, d.path, d.start) && StartsAt(s, ":", b.pe) && StartsAt(s, d.line, b.pe + 1) &&
      StartsAt(s, ":", b.le) && StartsAt(s, d.column, b.le + 1) && StartsAt(s, ": ", b.ce) &&
      StartsAt(s, d.kind + ": ", b.ce + 2) && StartsAt(s, d.message, b.MessageStart()) &&
      b.me == d.start + |Covered(d)|
  {
    KindParts(s, d.path + ":" + d.line + ":" + d.column, d.kind, d.message, d.start);
    HeadParts(s, d);
  }

  /** Each part of `head: kind: message` sits at its place in the text. */
  lemma {:induction false} KindParts(s: string, head: string, kind: string, message: string, i: nat)
    requires StartsAt(s, head + ": " + kind + ": " + message, i)
    ensures var k := i + |head| + 2;
      StartsAt(s, head, i) && StartsAt(s, ": ", i + |head|) &&
      StartsAt(s, kind + ": ", k) && StartsAt(s, message, k + |kind| + 2)
  {
    var withKind := head + ": " + kind;
    StartsAtConcat(s, withKind + ": ", message, i);
    StartsAtConcat(s, withKind, ": ", i);
    StartsAtConcat(s, head + ": ", kind, i);
    StartsAtConcat(s, head, ": ", i);
    StartsAtConcat(s, kind, ": ", i + |head| + 2);
  }

  /** Each part of `path:line:column` sits at its place in the text. */
  lemma {:induction false} HeadParts(s: string, d: Diagnostic)
    requires StartsAt(s, d.path + ":" + d.line + ":" + d.column, d.start)
    ensures var b := BoundsOf(d);
      StartsAt(s, d.path, d.start) && StartsAt(s, ":", b.pe) && StartsAt(s, d.line, b.pe + 1) &&
      StartsAt(s, ":", b.le) && StartsAt(s, d.column, b.le + 1)
  {
    var i := d.start;
    StartsAtConcat(s, d.path + ":" + d.line + ":", d.column, i);
    StartsAtConcat(s, d.path + ":" + d.line, ":", i);
    StartsAtConcat(s, d.path + ":", d.line, i);
    StartsAtConcat(s, d.path, ":", i);
  }

  /**
   * A diagnostic laid out anywhere in the text is found by `clean_xcode_error`: the
   * search succeeds, at that start or an earlier one, and the line is a number, not `unknown`.
   */
  lemma {:induction false} CleanFindsLayout(s: string, d: Diagnostic)
    requires StartsAt(s, Covered(d), d.start)
    requires d.path != [] && forall c <- d.path :: IsPathChar(c)
    requires d.line != [] && AllDigits(d.line) && d.column != [] && AllDigits(d.column)
    requires d.kind == "error" || d.kind == "warning"
    requires '\n' !in d.message
    requires var e := d.start + |Covered(d)|; e == |s| || s[e] == '\n'
    ensures SearchFrom(s, 0).Some? && SearchFrom(s, 0).value.start <= d.start
    ensures CleanXcodeError(s).line != Unknown && AllDigits(CleanXcodeError(s).line)
  {
    MatchAtComplete(s, d);
    var r := SearchFrom(s, 0).value;
    MatchAtGroups(s, r.start);
    assert !IsDigit(Unknown[0]);
  }

  /** `re.search`: the match with the leftmost start at or after `i`. */
  function SearchFrom(s: string, i: nat): (r: Option<Diagnostic>)
    requires i <= |s|
    ensures r.Some? ==> i <= r.value.start <= |s| && MatchAt(s, r.value.start) == r
    ensures forall j :: i <= j <= |s| && (r.None? || j < r.value.start) ==> MatchAt(s, j).None?
    decreases |s| - i
  {
    var m := MatchAt(s, i);
    if m.Some? then m
    else if i == |s| then None
    else SearchFrom(s, i + 1)
  }

  /** The record `clean_xcode_error` returns; `kind` is the dictionary's `type`. */
  datatype ErrorInfo = ErrorInfo(file: string, path: string, line: string, column: string, kind: string, message: string, fullError: string)

  const Unknown: string := "unknown"

  /** `clean_xcode_error`. */
  function CleanXcodeError(errorText: string): (r: ErrorInfo)
    ensures r.fullError == errorText
    ensures r.kind == "error" || r.kind == "warning"
  {
    match SearchFrom(errorText, 0)
    case Some(d) => ErrorInfo(LastSegment(d.path), d.path, d.line, d.column, d.kind, d.message, errorText)
    case None => ErrorInfo(Unknown, Unknown, Unknown, Unknown, "error", errorText, errorText)
  }

  /** Text without the layout gives the all-`unknown` record carrying the whole text as its message. */
  lemma {:induction false} CleanUnmatched(errorText: string)
    requires SearchFrom(errorText, 0).None?
    ensures CleanXcodeError(errorText) == ErrorInfo("unknown", "unknown", "unknown", "unknown", "error", errorText, errorText)
    ensures forall j :: 0 <= j <= |errorText| ==> MatchAt(errorText, j).None?
  {
  }

  /** On a match the fields are the groups of the leftmost match. */
  lemma {:induction false} CleanMatched(errorText: string)
    requires SearchFrom(errorText, 0).Some?
    ensures var d := SearchFrom(errorText, 0).value; var r := CleanXcodeError(errorText);
      r.path == d.path && r.line == d.line && r.column == d.column && r.kind == d.kind && r.message == d.message &&
      StartsAt(errorText, Covered(d), d.start) &&
      (forall j :: 0 <= j < d.start ==> MatchAt(errorText, j).None?)
  {
    MatchAtSound(errorText, SearchFrom(errorText, 0).value.start);
  }

  /**
   * On a match the path is a non-empty run of path characters without `:`, line and
   * column are non-empty digit strings, and the message has no line break.
   */
  lemma {:induction false} CleanMatchedShape(errorText: string)
    requires SearchFrom(errorText, 0).Some?
    ensures var r := CleanXcodeError(errorText);
      r.path != [] && (forall c <- r.path :: IsPathChar(c)) && ':' !in r.path &&
      r.line != [] && AllDigits(r.line) && r.column != [] && AllDigits(r.column) &&
      '\n' !in r.message
  {
    var d := SearchFrom(errorText, 0).value;
    MatchAtGroups(errorText, d.start);
    assert ':' !in d.path by {
      forall c <- d.path ensures c != ':' {
        assert IsPathChar(c);
      }
    }
  }

  /**
   * On a match `file` is `os.path.basename(path)`: the part after the last `/` (so it
   * holds no `/` and ends the path), the whole path if it has none. `LastSegmentSpec`
   * states the rest of what that means.
   */
  lemma {:induction false} CleanMatchedFile(errorText: string)
    requires SearchFrom(errorText, 0).Some?
    ensures var r := CleanXcodeError(errorText);
      r.file == LastSegment(r.path) && '/' !in r.file && EndsWith(r.path, r.file) &&
      ('/' !in r.path ==> r.file == r.path)
  {
    var r := CleanXcodeError(errorText);
    assert r.file == LastSegment(r.path);
    LastSegmentSpec(r.path);
  }

  /** The lines `extract_code_context` keeps: `lines[max(0, n - c - 1):min(len(lines), n + c)]` with Python's slice rules. */
  function CodeWindow(lines: seq<string>, lineNum: int, contextLines: int): seq<string>
  {
    var start := if lineNum - contextLines - 1 > 0 then lineNum - contextLines - 1 else 0;
    var end := if |lines| < lineNum + contextLines then |lines| else lineNum + contextLines;
    PySlice(lines, start, end)
  }

  /**
   * `extract_code_context`: `None` when the line number is not an integer or the file
   * cannot be read (`file` is `None`), otherwise the window's lines concatenated.
   */
  function ExtractCodeContext(file: Option<seq<string>>, lineNum: string, contextLines: int): (r: Option<string>)
    ensures r.Some? <==> ParseInt(lineNum).Some? && file.Some?
  {
    match ParseInt(lineNum)
    case None => None
    case Some(n) =>
      match file
      case None => None
      case Some(lines) => Some(Join(CodeWindow(lines, n, contextLines), ""))
  }

  /**
   * For a line number `n >= 0` and `c >= 0` context lines, the window is the contiguous
   * run of lines from index `max(0, n - c - 1)` up to `min(len, n + c)`, at most `2c + 1`
   * lines, holding line `n` (1-based) whenever it exists, and empty once `n - c - 1`
   * reaches the end of the file.
   */
  lemma {:induction false} CodeWindowSpec(lines: seq<string>, n: int, c: int)
    requires n >= 0 && c >= 0
    ensures var lo := if n - c - 1 > 0 then n - c - 1 else 0;
      var hi := if |lines| < n + c then |lines| else n + c;
      CodeWindow(lines, n, c) == (if lo < hi then lines[lo..hi] else [])
    ensures |CodeWindow(lines, n, c)| <= 2 * c + 1
    ensures 1 <= n <= |lines| ==> lines[n - 1] in CodeWindow(lines, n, c)
    ensures n - c - 1 >= |lines| ==> CodeWindow(lines, n, c) == []
  {
    var lo := if n - c - 1 > 0 then n - c - 1 else 0;
    var hi := if |lines| < n + c then |lines| else n + c;
    if 1 <= n <= |lines| {
      assert lines[lo..hi][n - 1 - lo] == lines[n - 1];
    }
  }

  /** A negative end counts from the end of the file: line `-1` with no context gives all lines but the last. */
  lemma {:induction false} CodeWindowNegativeLine(lines: seq<string>)
    requires |lines| >= 1
    ensures CodeWindow(lines, -1, 0) == lines[..|lines| - 1]
  {
  }

  /** What `process_xcode_error` asks the language model for. */
  datatype Request =
    | XcodeRequest(errorMessage: string, codeContext: string)   // `generate_response_for_xcode_error`
    | GeneralRequest(query: string)                             // `generate_response` with the retrieved docs

  /** The calls `process_xcode_error` makes: the retrieval query, its size, and the model request. */
  datatype Plan = Plan(retrievalQuery: string, retrievalCount: int, request: Request)

  /** The number of documents retrieved for an Xcode error. */
  const RetrievalCount: int := 3

  /**
   * `process_xcode_error`. `pathExists` is `os.path.exists` of the parsed path and
   * `file` the lines of that file (`None` when it cannot be read).
   */
  function ProcessXcodeError(errorText: string, includeCode: bool, pathExists: bool, file: Option<seq<string>>): Plan
  {
    var info := CleanXcodeError(errorText);
    var codeContext :=
      if includeCode && info.path != Unknown && pathExists then ExtractCodeContext(file, info.line, 5) else None;
    var request :=
      if codeContext.Some? && codeContext.value != "" then XcodeRequest(info.fullError, codeContext.value)
      else GeneralRequest("Xcode error: " + info.fullError);
    Plan(info.message, RetrievalCount, request)
  }

  /**
   * Routing: documents are always retrieved for the message; the dedicated Xcode request
   * is made exactly when code was asked for, the path is known and exists, and the
   * extracted code is non-empty; otherwise the query is `"Xcode error: "` and the text.
   */
  lemma {:induction false} ProcessXcodeErrorRouting(errorText: string, includeCode: bool, pathExists: bool, file: Option<seq<string>>)
    ensures var p := ProcessXcodeError(errorText, includeCode, pathExists, file);
      p.retrievalQuery == CleanXcodeError(errorText).message && p.retrievalCount == 3
    ensures var p := ProcessXcodeError(errorText, includeCode, pathExists, file);
      var info := CleanXcodeError(errorText);
      var ctx := ExtractCodeContext(file, info.line, 5);
      p.request.XcodeRequest? <==>
        includeCode && info.path != "unknown" && pathExists && ctx.Some? && ctx.value != ""
    ensures var p := ProcessXcodeError(errorText, includeCode, pathExists, file);
      p.request.XcodeRequest? ==> p.request.errorMessage == errorText && p.request.codeContext != ""
    ensures var p := ProcessXcodeError(errorText, includeCode, pathExists, file);
      p.request.GeneralRequest? ==> p.request.query == "Xcode error: " + errorText
    ensures SearchFrom(errorText, 0).None? ==>
      ProcessXcodeError(errorText, includeCode, pathExists, file).request == GeneralRequest("Xcode error: " + errorText)
  {
  }
}
