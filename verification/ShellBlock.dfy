/** internal/install/shellprofile.go: the managed block of a shell rc file. */
module ShellBlock {
  import opened Common

  /** The lines that open and close a managed block. */
  datatype Sentinels = Sentinels(start: string, end: string)

  const OCA := Sentinels("# >>> OCA Managed Block >>>", "# <<< OCA Managed Block <<<")

  // ---- String searching --------------------------------------------------

  predicate OccursAt(s: string, sub: string, i: int) {
    0 <= i && i + |sub| <= |s| && forall k | i <= k < i + |sub| :: s[k] == sub[k - i]
  }

  predicate Contains(s: string, sub: string) {
    exists i | 0 <= i <= |s| :: OccursAt(s, sub, i)
  }

  function IndexFrom(s: string, sub: string, from: nat): (r: Option<nat>)
    requires from <= |s|
    ensures r.Some? ==> from <= r.value <= |s| - |sub|
    decreases |s| - from
  {
    if OccursAt(s, sub, from) then Some(from)
    else if from == |s| then None
    else IndexFrom(s, sub, from + 1)
  }

  function IndexOf(s: string, sub: string): Option<nat> {
    IndexFrom(s, sub, 0)
  }

  lemma {:induction false} IndexFromFirst(s: string, sub: string, from: nat)
    requires from <= |s|
    ensures var r := IndexFrom(s, sub, from);
      && (r.Some? ==> OccursAt(s, sub, r.value))
      && (forall j | from <= j < (if r.Some? then r.value else |s| + 1) :: !OccursAt(s, sub, j))
    decreases |s| - from
  {
    if !OccursAt(s, sub, from) && from < |s| { IndexFromFirst(s, sub, from + 1); }
  }

  /** Removes every trailing newline. */
  function TrimNewlines(s: string): string {
    if s != "" && s[|s| - 1] == '\n' then TrimNewlines(s[..|s| - 1]) else s
  }

  /** Removes one leading newline. */
  function StripNewline(s: string): string {
    if s != "" && s[0] == '\n' then s[1..] else s
  }

  function EndLine(s: string): string {
    if s != "" && s[|s| - 1] != '\n' then s + "\n" else s
  }

  // ---- The block functions -----------------------------------------------

  function ExtractBlock(m: Sentinels, content: string): Result<string> {
    match IndexOf(content, m.start)
    case None => Ok("")
    case Some(start) => ReadToEnd(m, StripNewline(content[start + |m.start|..]))
  }

  function ReadToEnd(m: Sentinels, afterStart: string): Result<string> {
    match IndexOf(afterStart, m.end)
    case None => Err("malformed managed block")
    case Some(end) =>
      if Contains(afterStart[end + |m.end|..], m.start) then Err("multiple managed blocks")
      else Ok(TrimNewlines(afterStart[..end]))
  }

  function Block(m: Sentinels, content: string): string {
    m.start + "\n" + content + "\n" + m.end
  }

  function ReplaceOrAppendBlock(m: Sentinels, file: string, content: string): string {
    match IndexOf(file, m.start)
    case None => EndLine(file) + Block(m, content) + "\n"
    case Some(start) =>
      match IndexOf(file[start..], m.end)
      case None => file
      case Some(end) => file[..start] + Block(m, content) + file[start + end + |m.end|..]
  }

  /** The text RemoveBlock leaves. */
  function WithoutBlock(m: Sentinels, file: string): string {
    match IndexOf(file, m.start)
    case None => file
    case Some(start) =>
      match IndexOf(file[start..], m.end)
      case None => file
      case Some(end) => Collapse(file[..start] + StripNewline(file[start + end + |m.end|..]))
  }

  /** Trailing newlines become one; an empty text stays empty. */
  function Collapse(s: string): string {
    if s == "" then "" else TrimNewlines(s) + "\n"
  }

  datatype BlockDiff = BlockDiff(hasBlock: bool, matches: bool)

  function DiffBlock(m: Sentinels, file: string, expected: string): Result<BlockDiff> {
    match ExtractBlock(m, file)
    case Err(e) => Err(e)
    case Ok(actual) => Ok(BlockDiff(actual != "", actual != "" && actual == expected))
  }

  function IsEdited(m: Sentinels, file: string, expected: string): Result<bool> {
    match DiffBlock(m, file, expected)
    case Err(e) => Err(e)
    case Ok(diff) => Ok(diff.hasBlock && !diff.matches)
  }

  // ---- Where a sentinel is first found -----------------------------------

  /** The first character occurs nowhere else in the text, and there is no newline. */
  predicate Marker(text: string) {
    text != "" && forall k | 0 <= k < |text| :: text[k] != '\n' && (k > 0 ==> text[k] != text[0])
  }

  /** What the proofs use of the two sentinels. */
  predicate WellMarked(m: Sentinels) {
    && Marker(m.start) && Marker(m.end) && m.start[0] == m.end[0]
    && |m.start| == |m.end| && m.start != m.end
  }

  lemma StartIsMarker()
    ensures Marker(OCA.start)
  {
  }

  lemma EndIsMarker()
    ensures Marker(OCA.end)
  {
  }

  /** The real sentinels have what the proofs use. */
  lemma OcaIsWellMarked()
    ensures WellMarked(OCA)
  {
    StartIsMarker();
    EndIsMarker();
    assert OCA.start[2] == '>' && OCA.end[2] == '<';
  }

  lemma NotContained(s: string, sub: string)
    ensures IndexOf(s, sub).None? <==> !Contains(s, sub)
    ensures IndexOf(s, sub).Some? ==> OccursAt(s, sub, IndexOf(s, sub).value)
  {
    IndexFromFirst(s, sub, 0);
  }

  lemma OccursLeft(a: string, b: string, sub: string, j: nat)
    requires j + |sub| <= |a|
    ensures OccursAt(a + b, sub, j) <==> OccursAt(a, sub, j)
  {
    assert forall i | 0 <= i < |a| :: (a + b)[i] == a[i];
  }

  lemma OccursRight(a: string, b: string, sub: string, j: nat)
    ensures OccursAt(a + b, sub, |a| + j) <==> OccursAt(b, sub, j)
  {
    var s := a + b;
    assert b == s[|a|..];
    if OccursAt(b, sub, j) {
      forall k | 0 <= k < |sub| ensures sub[k] == s[|a| + j + k] { assert b[j + k] == s[|a| + (j + k)]; }
    }
    if OccursAt(s, sub, |a| + j) {
      forall k | 0 <= k < |sub| ensures sub[k] == b[j + k] { assert b[j + k] == s[|a| + (j + k)]; }
    }
  }

  lemma Assoc(a: string, b: string, c: string)
    ensures a + b + c == a + (b + c)
  {
  }

  lemma TakeDrop(a: string, b: string, c: string)
    ensures (a + b + c)[..|a|] == a && (a + b + c)[|a|..] == b + c && (a + b + c)[|a| + |b|..] == c
  {
  }

  /** An occurrence cuts the text in three. */
  lemma Cut(s: string, sub: string, i: nat)
    requires OccursAt(s, sub, i)
    ensures s == s[..i] + sub + s[i + |sub|..]
  {
    assert s[i..i + |sub|] == sub;
  }

  lemma PartsLack(a: string, b: string, mark: string)
    requires !Contains(a + b, mark)
    ensures !Contains(a, mark) && !Contains(b, mark)
  {
    forall j: nat | j + |mark| <= |a|
      ensures !OccursAt(a, mark, j)
    {
      OccursLeft(a, b, mark, j);
    }
    forall j | 0 <= j <= |b|
      ensures !OccursAt(b, mark, j)
    {
      OccursRight(a, b, mark, j);
    }
  }

  /** A marker written after text that lacks it is found there first. */
  lemma FirstMarker(p: string, mark: string, rest: string)
    requires Marker(mark) && !Contains(p, mark)
    ensures IndexOf(p + mark + rest, mark) == Some(|p|)
  {
    var s := p + mark + rest;
    assert OccursAt(s, mark, |p|);
    forall j | 0 <= j < |p|
      ensures !OccursAt(s, mark, j)
    {
      NotAcross(p, mark, rest, j);
    }
    IndexIs(s, mark, |p|);
  }

  lemma IndexIs(s: string, sub: string, i: nat)
    requires OccursAt(s, sub, i) && forall j | 0 <= j < i :: !OccursAt(s, sub, j)
    ensures IndexOf(s, sub) == Some(i)
  {
    IndexFromFirst(s, sub, 0);
  }

  lemma NotAcross(p: string, mark: string, rest: string, j: nat)
    requires Marker(mark) && !Contains(p, mark) && j < |p|
    ensures !OccursAt(p + mark + rest, mark, j)
  {
    if j + |mark| <= |p| {
      Assoc(p, mark, rest);
      OccursLeft(p, mark + rest, mark, j);
    } else {
      assert (p + mark + rest)[j + (|p| - j)] == mark[0] != mark[|p| - j];
    }
  }

  /** No marker begins in the newline before a text. */
  lemma NewlineBefore(c: string, mark: string)
    requires Marker(mark)
    ensures Contains("\n" + c, mark) <==> Contains(c, mark)
  {
    var s := "\n" + c;
    assert !OccursAt(s, mark, 0) by { assert s[0 + 0] != mark[0]; }
    forall j: nat | j <= |c|
      ensures OccursAt(s, mark, j + 1) <==> OccursAt(c, mark, j)
    {
      OccursRight("\n", c, mark, j);
    }
    if Contains(s, mark) {
      var j :| 0 <= j <= |s| && OccursAt(s, mark, j);
      OccursRight("\n", c, mark, j - 1);
      assert OccursAt(c, mark, j - 1);
    }
  }

  /** Nor does one end in the newline after it. */
  lemma NewlineAfter(c: string, mark: string)
    requires Marker(mark)
    ensures Contains(c + "\n", mark) <==> Contains(c, mark)
  {
    var s := c + "\n";
    forall j: nat | j <= |s|
      ensures OccursAt(s, mark, j) <==> OccursAt(c, mark, j)
    {
      if j + |mark| <= |c| {
        OccursLeft(c, "\n", mark, j);
      } else if j + |mark| == |s| {
        assert s[j + (|mark| - 1)] != mark[|mark| - 1];
      }
    }
    if Contains(s, mark) {
      var j :| 0 <= j <= |s| && OccursAt(s, mark, j);
      assert OccursAt(c, mark, j);
    }
  }

  /** No end sentinel begins inside a start sentinel. */
  lemma NoEndInStart(m: Sentinels, mid: string)
    requires WellMarked(m) && !Contains(mid, m.end)
    ensures !Contains(m.start + mid, m.end)
  {
    var s := m.start + mid;
    forall j | 0 <= j <= |s|
      ensures !OccursAt(s, m.end, j)
    {
      if j >= |m.start| {
        OccursRight(m.start, mid, m.end, j - |m.start|);
      } else {
        EndNotAt(m, s, j);
      }
    }
  }

  lemma EndNotAt(m: Sentinels, s: string, j: nat)
    requires WellMarked(m) && m.start <= s && j < |m.start|
    ensures !OccursAt(s, m.end, j)
  {
    if j > 0 {
      assert s[j + 0] == m.start[j] != m.end[0];
    } else {
      var k :| 0 <= k < |m.end| && m.end[k] != m.start[k];
      assert s[0 + k] == m.start[k];
    }
  }

  lemma NoneBefore(s: string, mark: string, p: string)
    requires mark != "" && IndexOf(s, mark).Some? && p == s[..IndexOf(s, mark).value]
    ensures !Contains(p, mark)
  {
    var rest := s[|p|..];
    assert s == p + rest;
    IndexFromFirst(s, mark, 0);
    forall j: nat | j + |mark| <= |p|
      ensures !OccursAt(p, mark, j)
    {
      OccursLeft(p, rest, mark, j);
    }
  }

  // ---- A file with a block, and one without ------------------------------

  /** p is the text before the block, mid the text between the sentinels, and after it may come anything. */
  predicate Parts(m: Sentinels, p: string, mid: string) {
    !Contains(p, m.start) && !Contains(mid, m.end)
  }

  function Joined(m: Sentinels, p: string, mid: string, q: string): string {
    p + m.start + mid + m.end + q
  }

  /** The first start sentinel has no end sentinel after it. */
  predicate Dangling(m: Sentinels, file: string) {
    var start := IndexOf(file, m.start);
    start.Some? && IndexOf(file[start.value..], m.end).None?
  }

  lemma Found(m: Sentinels, p: string, mid: string, q: string)
    requires WellMarked(m) && Parts(m, p, mid)
    ensures IndexOf(Joined(m, p, mid, q), m.start) == Some(|p|)
    ensures IndexOf(Joined(m, p, mid, q)[|p|..], m.end) == Some(|m.start| + |mid|)
    ensures Joined(m, p, mid, q)[..|p|] == p
    ensures Joined(m, p, mid, q)[|p| + |m.start|..] == mid + m.end + q
    ensures Joined(m, p, mid, q)[|p| + |m.start| + |mid| + |m.end|..] == q
  {
    var f := Joined(m, p, mid, q);
    FirstMarker(p, m.start, mid + m.end + q);
    assert f == p + m.start + (mid + m.end + q);
    NoEndInStart(m, mid);
    FirstMarker(m.start + mid, m.end, q);
    assert f[|p|..] == m.start + mid + m.end + q;
  }

  /** Writing replaces the block and nothing else. */
  lemma WriteReplaces(m: Sentinels, p: string, mid: string, q: string, c: string)
    requires WellMarked(m) && Parts(m, p, mid)
    ensures ReplaceOrAppendBlock(m, Joined(m, p, mid, q), c) == p + Block(m, c) + q
    ensures ReplaceOrAppendBlock(m, p + m.start + mid + m.end + q, c) == p + m.start + "\n" + c + "\n" + m.end + q
  {
    Found(m, p, mid, q);
    assert p + Block(m, c) + q == p + m.start + "\n" + c + "\n" + m.end + q;
  }

  /** The newline a text lacks at its end; the empty text lacks none. */
  predicate LacksNewline(text: string) {
    text != "" && text[|text| - 1] != '\n'
  }

  /** Without a block the file keeps its own text whole, and the block follows on lines of its own. */
  lemma AppendKeepsFile(m: Sentinels, file: string, c: string)
    requires !Contains(file, m.start)
    ensures var own := if LacksNewline(file) then file + "\n" else file;
      ReplaceOrAppendBlock(m, file, c) == own + m.start + "\n" + c + "\n" + m.end + "\n"
    ensures file <= ReplaceOrAppendBlock(m, file, c)
  {
    NotContained(file, m.start);
    var own := if LacksNewline(file) then file + "\n" else file;
    var tail := m.start + "\n" + c + "\n" + m.end + "\n";
    assert own + m.start + "\n" + c + "\n" + m.end + "\n" == own + tail;
    assert own + Block(m, c) + "\n" == own + tail;
  }

  /** A block that was never closed is neither replaced nor removed. */
  lemma UnclosedIsLeft(m: Sentinels, p: string, rest: string, c: string)
    requires WellMarked(m) && !Contains(p, m.start) && !Contains(rest, m.end)
    ensures var file := p + m.start + rest;
      ReplaceOrAppendBlock(m, file, c) == file && WithoutBlock(m, file) == file && ExtractBlock(m, file).Err?
  {
    var file := p + m.start + rest;
    FirstMarker(p, m.start, rest);
    assert file[|p|..] == m.start + rest;
    NoEndInStart(m, rest);
    NotContained(m.start + rest, m.end);
    OkIsNotDangling(m, file);
  }

  /** What is left when trailing newlines are taken off. */
  lemma {:induction false} TrimSplits(s: string) returns (newlines: string)
    ensures s == TrimNewlines(s) + newlines && forall c | c in newlines :: c == '\n'
    ensures TrimNewlines(s) == "" || LacksNewline(TrimNewlines(s))
  {
    if s != "" && s[|s| - 1] == '\n' {
      newlines := TrimSplits(s[..|s| - 1]);
      newlines := newlines + "\n";
      assert s == s[..|s| - 1] + "\n";
    } else {
      newlines := "";
    }
  }

  /** s with exactly one newline at its end instead of those it has; nothing for nothing. */
  predicate Tidied(s: string, r: string) {
    if s == "" then r == ""
    else
      && r != "" && r[|r| - 1] == '\n' && !(|r| >= 2 && r[|r| - 2] == '\n')
      && |r| - 1 <= |s| && s[..|r| - 1] == r[..|r| - 1]
      && forall k | |r| - 1 <= k < |s| :: s[k] == '\n'
  }

  lemma CollapseTidies(s: string)
    ensures Tidied(s, Collapse(s))
  {
    var newlines := TrimSplits(s);
    var t := TrimNewlines(s);
    if s != "" {
      assert (t + "\n")[..|t|] == t;
      assert forall k | |t| <= k < |s| :: s[k] == newlines[k - |t|] && s[k] in newlines;
    }
  }

  /** Removing joins what is before the block and after its line, and leaves one newline at the end. */
  lemma RemoveTakesOut(m: Sentinels, p: string, mid: string, q: string)
    requires WellMarked(m) && Parts(m, p, mid)
    ensures WithoutBlock(m, Joined(m, p, mid, q)) == Collapse(p + StripNewline(q))
    ensures Tidied(p + (if q != "" && q[0] == '\n' then q[1..] else q), WithoutBlock(m, p + m.start + mid + m.end + q))
  {
    Found(m, p, mid, q);
    CollapseTidies(p + StripNewline(q));
  }

  lemma NothingToRemove(m: Sentinels, file: string)
    requires !Contains(file, m.start)
    ensures WithoutBlock(m, file) == file && ExtractBlock(m, file) == Ok("")
  {
    NotContained(file, m.start);
  }

  lemma ExtractReads(m: Sentinels, p: string, mid: string, q: string)
    requires WellMarked(m) && Parts(m, p, mid)
    ensures ExtractBlock(m, Joined(m, p, mid, q)) ==
      if Contains(q, m.start) then Err("multiple managed blocks") else Ok(TrimNewlines(StripNewline(mid)))
  {
    Found(m, p, mid, q);
    var body := StripNewline(mid);
    ExtractAt(m, Joined(m, p, mid, q), |p|, mid + m.end + q);
    StripFront(m, mid, q);
    StripKeepsLack(mid, m.end);
    ReadsToEnd(m, body, q);
  }

  lemma ExtractAt(m: Sentinels, file: string, start: nat, rest: string)
    requires IndexOf(file, m.start) == Some(start) && file[start + |m.start|..] == rest
    ensures ExtractBlock(m, file) == ReadToEnd(m, StripNewline(rest))
  {
  }

  lemma StripKeepsLack(s: string, mark: string)
    requires !Contains(s, mark)
    ensures !Contains(StripNewline(s), mark)
  {
    if s != StripNewline(s) {
      assert s == s[..1] + s[1..];
      PartsLack(s[..1], s[1..], mark);
    }
  }

  lemma ReadsToEnd(m: Sentinels, body: string, q: string)
    requires WellMarked(m) && !Contains(body, m.end)
    ensures ReadToEnd(m, body + m.end + q) ==
      if Contains(q, m.start) then Err("multiple managed blocks") else Ok(TrimNewlines(body))
  {
    FirstMarker(body, m.end, q);
    TakeDrop(body, m.end, q);
  }

  lemma StripFront(m: Sentinels, mid: string, q: string)
    requires m.end != "" && m.end[0] != '\n'
    ensures StripNewline(mid + m.end + q) == StripNewline(mid) + m.end + q
  {
    var s := mid + m.end + q;
    assert s[0] == if mid == "" then m.end[0] else mid[0];
  }

  /** A file whose start sentinel is closed falls into parts. */
  lemma Split(m: Sentinels, file: string) returns (p: string, mid: string, q: string)
    requires WellMarked(m) && Contains(file, m.start) && !Dangling(m, file)
    ensures Parts(m, p, mid) && file == Joined(m, p, mid, q)
  {
    NotContained(file, m.start);
    p, mid, q := SplitAt(m, file, IndexOf(file, m.start).value);
  }

  lemma SplitAt(m: Sentinels, file: string, start: nat) returns (p: string, mid: string, q: string)
    requires WellMarked(m) && IndexOf(file, m.start) == Some(start) && IndexOf(file[start..], m.end).Some?
    ensures Parts(m, p, mid) && file == Joined(m, p, mid, q)
  {
    p := file[..start];
    Halves(file, start);
    StartsThere(m, file, start);
    NoneBefore(file, m.start, p);
    mid, q := SplitTail(m, file[start..]);
    JoinedFrom(m, file, p, file[start..], mid, q);
  }

  lemma Halves(s: string, i: nat)
    requires i <= |s|
    ensures s == s[..i] + s[i..]
  {
  }

  lemma StartsThere(m: Sentinels, file: string, start: nat)
    requires IndexOf(file, m.start) == Some(start)
    ensures m.start <= file[start..]
  {
    NotContained(file, m.start);
  }

  lemma JoinedFrom(m: Sentinels, file: string, p: string, tail: string, mid: string, q: string)
    requires file == p + tail && tail == m.start + mid + m.end + q
    ensures file == Joined(m, p, mid, q)
  {
  }

  lemma SplitTail(m: Sentinels, tail: string) returns (mid: string, q: string)
    requires WellMarked(m) && m.start <= tail && IndexOf(tail, m.end).Some?
    ensures !Contains(mid, m.end) && tail == m.start + mid + m.end + q
  {
    var end := IndexOf(tail, m.end).value;
    NotContained(tail, m.end);
    if end < |m.start| { EndNotAt(m, tail, end); }
    mid, q := tail[|m.start|..end], tail[end + |m.end|..];
    Cut(tail, m.end, end);
    NoneBefore(tail, m.end, tail[..end]);
    StartThenMid(m, tail, end);
    PartsLack(m.start, mid, m.end);
  }

  lemma StartThenMid(m: Sentinels, tail: string, end: nat)
    requires m.start <= tail && |m.start| <= end <= |tail|
    ensures tail[..end] == m.start + tail[|m.start|..end]
  {
  }

  // ---- Printer and parser ------------------------------------------------

  lemma MidLacksEnd(m: Sentinels, c: string)
    requires WellMarked(m)
    ensures Contains("\n" + c + "\n", m.end) <==> Contains(c, m.end)
  {
    NewlineAfter("\n" + c, m.end);
    NewlineBefore(c, m.end);
  }

  /** A written block, when its content does not close it early. */
  lemma BlockParts(m: Sentinels, p: string, c: string, q: string)
    requires WellMarked(m) && !Contains(p, m.start) && !Contains(c, m.end)
    ensures Parts(m, p, "\n" + c + "\n") && p + Block(m, c) + q == Joined(m, p, "\n" + c + "\n", q)
  {
    MidLacksEnd(m, c);
  }

  /** And when it does: the block ends at the first end sentinel of the content. */
  lemma ClosedEarly(m: Sentinels, p: string, c: string, q: string) returns (head: string, rest: string)
    requires WellMarked(m) && !Contains(p, m.start) && Contains(c, m.end)
    ensures Parts(m, p, "\n" + head) && |head| < |c|
    ensures p + Block(m, c) + q == Joined(m, p, "\n" + head, rest + "\n" + m.end + q)
  {
    NotContained(c, m.end);
    var e := IndexOf(c, m.end).value;
    head, rest := c[..e], c[e + |m.end|..];
    Cut(c, m.end, e);
    NoneBefore(c, m.end, head);
    NewlineBefore(head, m.end);
    Reassociate(m, p, head, rest, q);
  }

  lemma Reassociate(m: Sentinels, p: string, head: string, rest: string, q: string)
    ensures p + Block(m, head + m.end + rest) + q == Joined(m, p, "\n" + head, rest + "\n" + m.end + q)
  {
    assert p + Block(m, head + m.end + rest) + q == Joined(m, p, "\n" + head, rest + "\n" + m.end + q);
  }

  /** Where a write puts the block: text p before it and q after it. */
  lemma Placement(m: Sentinels, file: string) returns (p: string, q: string)
    requires WellMarked(m) && !Dangling(m, file)
    ensures !Contains(p, m.start)
    ensures forall c :: ReplaceOrAppendBlock(m, file, c) == p + Block(m, c) + q
    ensures ExtractBlock(m, file).Ok? <==> !Contains(q, m.start)
    ensures !Contains(file, m.start) ==> p == EndLine(file) && q == "\n"
  {
    NotContained(file, m.start);
    if Contains(file, m.start) {
      var mid;
      p, mid, q := Split(m, file);
      forall c ensures ReplaceOrAppendBlock(m, file, c) == p + Block(m, c) + q { WriteReplaces(m, p, mid, q, c); }
      ExtractReads(m, p, mid, q);
    } else {
      p, q := EndLine(file), "\n";
      NewlineAfter(file, m.start);
      assert forall j | 0 <= j <= 1 :: !OccursAt(q, m.start, j) by { assert m.start[0] != q[0]; }
    }
  }

  lemma ExtractWritten(m: Sentinels, p: string, c: string, q: string)
    requires WellMarked(m) && !Contains(p, m.start) && !Contains(q, m.start) && !Contains(c, m.end)
    ensures ExtractBlock(m, p + Block(m, c) + q) == Ok(TrimNewlines(c))
  {
    BlockParts(m, p, c, q);
    ExtractReads(m, p, "\n" + c + "\n", q);
    assert StripNewline("\n" + c + "\n") == c + "\n";
    assert (c + "\n")[..|c|] == c;
  }

  lemma {:induction false} TrimShape(s: string)
    ensures |TrimNewlines(s)| <= |s|
    ensures TrimNewlines(s) == s <==> s == "" || s[|s| - 1] != '\n'
  {
    if s != "" && s[|s| - 1] == '\n' { TrimShape(s[..|s| - 1]); }
  }

  lemma OkIsNotDangling(m: Sentinels, file: string)
    requires WellMarked(m) && Dangling(m, file)
    ensures ExtractBlock(m, file).Err?
  {
    NotContained(file, m.start);
    var start := IndexOf(file, m.start).value;
    var rest := file[start + |m.start|..];
    NotContained(file[start..], m.end);
    Cut(file, m.start, start);
    TakeDrop(file[..start], m.start, rest);
    PartsLack(m.start, rest, m.end);
    StripKeepsLack(rest, m.end);
    NotContained(StripNewline(rest), m.end);
    ExtractAt(m, file, start, rest);
  }

  /**
   * In a file with no block or one well-formed block, what was written is read
   * back exactly when it has no end sentinel and no trailing newline.
   */
  lemma ReadsBackWhatWasWritten(m: Sentinels, file: string, c: string)
    requires WellMarked(m) && ExtractBlock(m, file).Ok?
    ensures ExtractBlock(m, ReplaceOrAppendBlock(m, file, c)) == Ok(c) <==>
      !Contains(c, m.end) && (c == "" || c[|c| - 1] != '\n')
  {
    if Dangling(m, file) { OkIsNotDangling(m, file); }
    var p, q := Placement(m, file);
    TrimShape(c);
    if Contains(c, m.end) {
      var head, rest := ClosedEarly(m, p, c, q);
      ExtractReads(m, p, "\n" + head, rest + "\n" + m.end + q);
      assert StripNewline("\n" + head) == head;
      TrimShape(head);
    } else {
      ExtractWritten(m, p, c, q);
    }
  }

  /** The second write wins entirely, exactly when the first did not close its own block early. */
  lemma LastWriteWins(m: Sentinels, file: string, c1: string, c2: string)
    requires WellMarked(m)
    ensures ReplaceOrAppendBlock(m, ReplaceOrAppendBlock(m, file, c1), c2) == ReplaceOrAppendBlock(m, file, c2) <==>
      Dangling(m, file) || !Contains(c1, m.end)
  {
    if !Dangling(m, file) {
      var p, q := Placement(m, file);
      if Contains(c1, m.end) {
        var head, rest := ClosedEarly(m, p, c1, q);
        WriteReplaces(m, p, "\n" + head, rest + "\n" + m.end + q, c2);
        assert |p + Block(m, c2) + (rest + "\n" + m.end + q)| > |p + Block(m, c2) + q|;
      } else {
        BlockParts(m, p, c1, q);
        WriteReplaces(m, p, "\n" + c1 + "\n", q, c2);
      }
    }
  }

  // ---- Install, then uninstall -------------------------------------------

  lemma CollapseEndLine(file: string)
    ensures Collapse(EndLine(file)) == Collapse(file)
  {
    if file != "" && file[|file| - 1] != '\n' {
      assert (file + "\n")[..|file|] == file;
    }
  }

  /**
   * Removing a freshly appended block restores the file up to its trailing
   * newlines, exactly when the block did not close early.
   */
  lemma RemoveUndoesInstall(m: Sentinels, file: string, c: string)
    requires WellMarked(m) && !Contains(file, m.start)
    ensures WithoutBlock(m, ReplaceOrAppendBlock(m, file, c)) == Collapse(file) <==> !Contains(c, m.end)
  {
    NotContained(file, m.start);
    var p, q := Placement(m, file);
    CollapseEndLine(file);
    if Contains(c, m.end) {
      var head, rest := ClosedEarly(m, p, c, q);
      RemoveTakesOut(m, p, "\n" + head, rest + "\n" + m.end + q);
      LeftoverIsLonger(m, p, rest);
    } else {
      BlockParts(m, p, c, q);
      RemoveTakesOut(m, p, "\n" + c + "\n", q);
      assert StripNewline(q) == "" && p + "" == p;
    }
  }

  lemma LeftoverIsLonger(m: Sentinels, p: string, rest: string)
    requires WellMarked(m)
    ensures |Collapse(p + StripNewline(rest + "\n" + m.end + "\n"))| > |Collapse(p)|
  {
    var tail := rest + "\n" + m.end + "\n";
    var s := p + StripNewline(tail);
    var body := s[..|s| - 1];
    assert s[|s| - 1] == '\n' && body[|body| - 1] == m.end[|m.end| - 1];
    TrimShape(body);
    TrimShape(p);
  }

  lemma NotOverNewline(a: string, b: string, mark: string, j: nat)
    requires Marker(mark) && j <= |a| < j + |mark|
    ensures !OccursAt(a + "\n" + b, mark, j)
  {
    assert mark[|a| - j] != '\n' == (a + "\n" + b)[j + (|a| - j)];
  }

  /** A marker beside a newline lies on one side of it. */
  lemma NewlineSplits(a: string, b: string, mark: string)
    requires Marker(mark)
    ensures Contains(a + "\n" + b, mark) <==> Contains(a, mark) || Contains(b, mark)
  {
    var s := a + "\n" + b;
    if Contains(s, mark) {
      var j :| 0 <= j <= |s| && OccursAt(s, mark, j);
      if j + |mark| <= |a| {
        Assoc(a, "\n", b);
        OccursLeft(a, "\n" + b, mark, j);
        assert OccursAt(a, mark, j);
      } else if j <= |a| {
        NotOverNewline(a, b, mark, j);
      } else {
        OccursRight(a + "\n", b, mark, j - |a + "\n"|);
        assert OccursAt(b, mark, j - |a + "\n"|);
      }
    } else {
      Assoc(a, "\n", b);
      PartsLack(a, "\n" + b, mark);
      PartsLack("\n", b, mark);
    }
  }

  /** Text that lacks the start sentinel still lacks it behind an end sentinel on its own line. */
  lemma StartAfterEnd(m: Sentinels, rest: string, q: string)
    requires WellMarked(m) && !Contains(q, m.start)
    ensures Contains(rest + "\n" + m.end + q, m.start) <==> Contains(rest, m.start)
  {
    NoEndInStart(Sentinels(m.end, m.start), q);
    NewlineSplits(rest, m.end + q, m.start);
    Assoc(rest + "\n", m.end, q);
  }

  /** What a written content reads back as: up to its first end sentinel, or an error if a block starts after that. */
  function FreshContent(m: Sentinels, c: string): Result<string> {
    match IndexOf(c, m.end)
    case None => Ok(TrimNewlines(c))
    case Some(e) =>
      if Contains(c[e + |m.end|..], m.start) then Err("multiple managed blocks") else Ok(TrimNewlines(c[..e]))
  }

  /** In a file with no block or one well-formed block, every write reads back as its content says. */
  lemma FreshReads(m: Sentinels, file: string, c: string)
    requires WellMarked(m) && ExtractBlock(m, file).Ok?
    ensures ExtractBlock(m, ReplaceOrAppendBlock(m, file, c)) == FreshContent(m, c)
  {
    if Dangling(m, file) { OkIsNotDangling(m, file); }
    var p, q := Placement(m, file);
    NotContained(c, m.end);
    if IndexOf(c, m.end).Some? {
      ClosedEarlyReads(m, p, c, q);
    } else {
      ExtractWritten(m, p, c, q);
    }
  }

  /** A content that reads back as something else reads back shorter. */
  lemma FreshIsShorter(m: Sentinels, c: string)
    requires m.end != "" && FreshContent(m, c).Ok?
    ensures |FreshContent(m, c).value| <= |c|
    ensures FreshContent(m, c).value == c <==> !Contains(c, m.end) && TrimNewlines(c) == c
  {
    NotContained(c, m.end);
    TrimShape(c);
    if IndexOf(c, m.end).Some? { TrimShape(c[..IndexOf(c, m.end).value]); }
  }

  /**
   * After a write, the block is reported edited exactly when what its content reads
   * back as is not empty, and the content lost trailing newlines or holds an end
   * sentinel; and malformed exactly when another block starts after that sentinel.
   */
  lemma FreshBlockEdited(m: Sentinels, file: string, c: string)
    requires WellMarked(m) && ExtractBlock(m, file).Ok?
    ensures var edited := IsEdited(m, ReplaceOrAppendBlock(m, file, c), c);
      match FreshContent(m, c)
      case Err(e) => edited == Err(e)
      case Ok(actual) => edited == Ok(actual != "" && (Contains(c, m.end) || TrimNewlines(c) != c))
  {
    FreshReads(m, file, c);
    EditedWhen(m, ReplaceOrAppendBlock(m, file, c), c, FreshContent(m, c));
    if FreshContent(m, c).Ok? { FreshIsShorter(m, c); }
  }

  /** What a comparison with the expected block tells. */
  lemma DiffTells(m: Sentinels, file: string, expected: string)
    ensures match ExtractBlock(m, file)
      case Err(e) => DiffBlock(m, file, expected) == Err(e)
      case Ok(content) => DiffBlock(m, file, expected) == Ok(BlockDiff(content != "", content != "" && content == expected))
  {
  }

  lemma EditedWhen(m: Sentinels, file: string, expected: string, actual: Result<string>)
    requires ExtractBlock(m, file) == actual
    ensures IsEdited(m, file, expected) ==
      match actual
      case Err(e) => Err(e)
      case Ok(content) => Ok(content != "" && content != expected)
  {
  }

  lemma ClosedEarlyReads(m: Sentinels, p: string, c: string, q: string)
    requires WellMarked(m) && !Contains(p, m.start) && !Contains(q, m.start) && IndexOf(c, m.end).Some?
    ensures ExtractBlock(m, p + Block(m, c) + q) == FreshContent(m, c)
  {
    NotContained(c, m.end);
    var e := IndexOf(c, m.end).value;
    var head, rest := c[..e], c[e + |m.end|..];
    Cut(c, m.end, e);
    NoneBefore(c, m.end, head);
    NewlineBefore(head, m.end);
    Reassociate(m, p, head, rest, q);
    ExtractReads(m, p, "\n" + head, rest + "\n" + m.end + q);
    assert StripNewline("\n" + head) == head;
    StartAfterEnd(m, rest, q);
  }
}
