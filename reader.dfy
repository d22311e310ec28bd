/** The state every reader shares (RinexReader in gnsstools/rinex/rinex.py):
    the lines of the file and a cursor into them, with the two cursor
    helpers that skip the header and blank lines. */
module Rinex {
  import opened Text

  const EndOfHeader := "END OF HEADER"

  /** The Python exceptions the readers raise on input they cannot handle. */
  datatype Error = IndexError | ValueError | KeyError | TypeError | NameError

  datatype Option<T> = None | Some(value: T)

  /** A value, or the exception raised instead of producing it. */
  datatype Result<T> = Ok(value: T) | Err(error: Error)

  /** How a call ends: with a value, by raising, or never (a loop that
      stops advancing its cursor). */
  datatype Outcome<T> = Done(value: T) | Raised(error: Error) | Diverges

  /** A list of results read so far in front of the rest, or the exception
      that cut the rest short. */
  function Prepend<T>(done: seq<T>, r: Result<seq<T>>): (p: Result<seq<T>>)
    ensures p.Ok? <==> r.Ok?
    ensures p.Ok? ==> |p.value| == |done| + |r.value| && p.value[..|done|] == done
    ensures p.Err? ==> p.error == r.error
  {
    match r
    case Ok(rs) => Ok(done + rs)
    case Err(e) => Err(e)
  }

  /** Moving one element from the rest to the part already read. */
  lemma PrependNil<T>(done: seq<T>)
    ensures Prepend(done, Ok([])) == Ok(done)
  {
    assert done + [] == done;
  }

  lemma PrependSnoc<T>(done: seq<T>, x: T, r: Result<seq<T>>)
    ensures Prepend(done, Prepend([x], r)) == Prepend(done + [x], r)
  {
    if r.Ok? {
      assert done + ([x] + r.value) == (done + [x]) + r.value;
    }
  }

  /** The records read so far in front of what the rest of a loop gives. */
  function After<T>(done: seq<T>, o: Outcome<seq<T>>): (p: Outcome<seq<T>>)
    ensures p.Done? <==> o.Done?
    ensures p.Done? ==> p.value == done + o.value
    ensures !o.Done? ==> p == o
  {
    match o
    case Done(rs) => Done(done + rs)
    case Raised(e) => Raised(e)
    case Diverges => Diverges
  }

  lemma AfterNil<T>(done: seq<T>)
    ensures After(done, Done([])) == Done(done)
  {
    assert done + [] == done;
  }

  lemma AfterEmpty<T>(o: Outcome<seq<T>>)
    ensures After([], o) == o
  {
    if o.Done? {
      assert [] + o.value == o.value;
    }
  }

  lemma AfterAfter<T>(done: seq<T>, more: seq<T>, o: Outcome<seq<T>>)
    ensures After(done, After(more, o)) == After(done + more, o)
  {
    if o.Done? {
      assert done + (more + o.value) == (done + more) + o.value;
    }
  }

  /** What one pass of a reader's main loop does at a line: pass over it,
      raise, leave the cursor where it was so that the loop turns forever,
      or read records and go on at line `next`. */
  datatype Turn<T> = Pass | Halt(error: Error) | Stall | Yield(records: seq<T>, next: nat)

  /** Every pass that reads moves the cursor forward. */
  predicate Forward<T>(steps: seq<Turn<T>>) {
    forall c | 0 <= c < |steps| :: steps[c].Yield? ==> c < steps[c].next <= |steps|
  }

  /** The main loop from line c, over the steps of every line: the records
      of every pass in order, or how the loop ends instead. */
  function Scan<T>(steps: seq<Turn<T>>, c: nat): Outcome<seq<T>>
    requires Forward(steps)
    decreases |steps| - c
  {
    if c >= |steps| then Done([])
    else match steps[c]
      case Pass => Scan(steps, c + 1)
      case Halt(e) => Raised(e)
      case Stall => Diverges
      case Yield(records, next) => After(records, Scan(steps, next))
  }

  /** The records before a pass in front of the scan from the line it
      ends on. */
  lemma ScanStep<T>(steps: seq<Turn<T>>, c: nat, done: seq<T>, done': seq<T>, next: nat)
    requires Forward(steps) && c < |steps|
    requires || (steps[c].Pass? && done' == done && next == c + 1)
             || (steps[c].Yield? && done' == done + steps[c].records && next == steps[c].next)
    ensures After(done, Scan(steps, c)) == After(done', Scan(steps, next))
  {
    if steps[c].Yield? {
      AfterAfter(done, steps[c].records, Scan(steps, steps[c].next));
    }
  }

  /** An exception ends the scan at a failing line; a scan that never ends
      reaches a stalled line. */
  lemma {:induction false} ScanShape<T>(steps: seq<Turn<T>>, c: nat)
    requires Forward(steps)
    ensures var o := Scan(steps, c);
      && (o.Raised? ==> exists k | c <= k < |steps| :: steps[k] == Halt(o.error))
      && (o.Diverges? ==> exists k | c <= k < |steps| :: steps[k].Stall?)
    decreases |steps| - c
  {
    if c < |steps| {
      match steps[c]
      case Pass => ScanShape(steps, c + 1);
      case Halt(_) =>
      case Stall =>
      case Yield(_, next) => ScanShape(steps, next);
    }
  }

  /** A property every record of every pass has holds of every record the
      scan returns. */
  lemma {:induction false} ScanAll<T>(steps: seq<Turn<T>>, c: nat, p: T -> bool)
    requires Forward(steps)
    requires forall k | 0 <= k < |steps| :: steps[k].Yield? ==> forall x | x in steps[k].records :: p(x)
    ensures Scan(steps, c).Done? ==> forall x | x in Scan(steps, c).value :: p(x)
    decreases |steps| - c
  {
    if c < |steps| {
      match steps[c]
      case Pass => ScanAll(steps, c + 1, p);
      case Halt(_) =>
      case Stall =>
      case Yield(_, next) => ScanAll(steps, next, p);
    }
  }

  /** A line that strips to nothing. */
  predicate IsBlank(line: string) {
    Strip(line) == ""
  }

  /** The line that ends a RINEX header. */
  predicate IsEndOfHeader(line: string) {
    Strip(line) == EndOfHeader
  }

  /** A line that does not strip to nothing. */
  predicate IsFilled(line: string) {
    !IsBlank(line)
  }

  /** The first line at or after `c` that satisfies `stop`, or the end of
      the input (`c` itself when `c` is already past it). */
  function FirstFrom(lines: seq<string>, stop: string -> bool, c: nat): (k: nat)
    ensures c <= k
    ensures k <= |lines| || k == c
    ensures k < |lines| ==> stop(lines[k])
    ensures forall j | c <= j < k :: j < |lines| && !stop(lines[j])
    decreases |lines| - c
  {
    if c >= |lines| || stop(lines[c]) then c else FirstFrom(lines, stop, c + 1)
  }

  /** Where `_skip_header` stops when started at `c`: the first line at or
      after `c` that strips to END OF HEADER, or the end of the input. */
  function HeaderEnd(lines: seq<string>, c: nat): (k: nat)
    ensures c <= k
    ensures k <= |lines| || k == c
    ensures k < |lines| ==> IsEndOfHeader(lines[k])
    ensures forall j | c <= j < k :: j < |lines| && !IsEndOfHeader(lines[j])
  {
    FirstFrom(lines, IsEndOfHeader, c)
  }

  /** Where `_skip_blank_lines` stops when started at `c`: the first
      non-blank line at or after `c`, or the end of the input. */
  function NextNonBlank(lines: seq<string>, c: nat): (k: nat)
    ensures c <= k
    ensures k <= |lines| || k == c
    ensures k < |lines| ==> !IsBlank(lines[k])
    ensures forall j | c <= j < k :: j < |lines| && IsBlank(lines[j])
  {
    FirstFrom(lines, IsFilled, c)
  }

  class RinexReader {
    const lines: seq<string>
    var cursor: nat

    constructor (lines: seq<string>)
      ensures this.lines == lines && cursor == 0
    {
      this.lines := lines;
      cursor := 0;
    }

    /** `_skip_header`: advance to the END OF HEADER line. */
    method SkipHeader()
      modifies this
      ensures cursor == HeaderEnd(lines, old(cursor))
    {
      while cursor < |lines| && !IsEndOfHeader(lines[cursor])
        invariant HeaderEnd(lines, cursor) == HeaderEnd(lines, old(cursor))
        decreases |lines| - cursor
      {
        cursor := cursor + 1;
      }
    }

    /** `_skip_blank_lines`: advance past blank lines. */
    method SkipBlankLines()
      modifies this
      ensures cursor == NextNonBlank(lines, old(cursor))
    {
      while cursor < |lines| && IsBlank(lines[cursor])
        invariant NextNonBlank(lines, cursor) == NextNonBlank(lines, old(cursor))
        decreases |lines| - cursor
      {
        cursor := cursor + 1;
      }
    }
  }
}
