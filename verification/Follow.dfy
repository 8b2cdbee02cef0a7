/** `follow` of `page.ts`: an NDJSON stream read in whatever pieces the network delivers. */
module Follow {
  import opened Common
  import opened Sequences
  import opened Text

  /** One line of the stream; a line that is not JSON throws like an in-band error. */
  datatype Frame<C> = ErrorFrame(message: string) | DoneFrame | ChunkFrame(chunk: C) | OtherFrame

  datatype Status = Ended | Failed(message: string)

  /** Reading on, with the unterminated rest of the buffer, or stopped for good. */
  datatype Progress<C> = Going(called: seq<C>, rest: string) | Stopped(called: seq<C>, status: Status)

  /** Take every complete line off the buffer, until one of them ends the stream. */
  function Drain<C>(parse: string -> Frame<C>, buffer: string, called: seq<C>): Progress<C>
    decreases |buffer|
  {
    match Newline(buffer)
    case None => Going(called, buffer)
    case Some(nl) =>
      var line, rest := buffer[..nl], buffer[nl + 1..];
      if line == "" then Drain(parse, rest, called)
      else
        match parse(line)
        case ErrorFrame(message) => Stopped(called, Failed(message))
        case DoneFrame => Stopped(called, Ended)
        case ChunkFrame(c) => Drain(parse, rest, called + [c])
        case OtherFrame => Drain(parse, rest, called)
  }

  function Feed<C>(parse: string -> Frame<C>, p: Progress<C>, piece: string): Progress<C> {
    match p
    case Stopped(_, _) => p
    case Going(called, rest) => Drain(parse, rest + piece, called)
  }

  function FeedAll<C>(parse: string -> Frame<C>, pieces: seq<string>): Progress<C> {
    if pieces == [] then Going([], "") else Feed(parse, FeedAll(parse, pieces[..|pieces| - 1]), pieces[|pieces| - 1])
  }

  /** When the body runs out the stream has ended, whatever is left unterminated. */
  function Finish<C>(p: Progress<C>): (seq<C>, Status) {
    match p
    case Going(called, _) => (called, Ended)
    case Stopped(called, status) => (called, status)
  }

  /** Take complete lines off the buffer; `stop` is set once a line ends the stream. */
  method DrainBuffer<C>(parse: string -> Frame<C>, buffer: string, called: seq<C>)
    returns (called': seq<C>, rest: string, stop: Option<Status>)
    ensures Drain(parse, buffer, called) == match stop case None => Going(called', rest) case Some(status) => Stopped(called', status)
  {
    called', rest, stop := called, buffer, None;
    while true
      invariant stop.None?
      invariant Drain(parse, rest, called') == Drain(parse, buffer, called)
      decreases |rest|
    {
      var nl := Newline(rest);
      if nl.None? {
        return;
      }
      var line := rest[..nl.value];
      rest := rest[nl.value + 1..];
      if line != "" {
        match parse(line) {
          case ErrorFrame(message) =>
            stop := Some(Failed(message));
            return;
          case DoneFrame =>
            stop := Some(Ended);
            return;
          case ChunkFrame(c) => called' := called' + [c];
          case OtherFrame =>
        }
      }
    }
  }

  /** `called` lists the callback's arguments in order; `status` is what the page is told at the end. */
  method FollowStream<C>(parse: string -> Frame<C>, pieces: seq<string>) returns (called: seq<C>, status: Status)
    ensures (called, status) == Finish(FeedAll(parse, pieces))
  {
    var buffer := "";
    called := [];
    for r := 0 to |pieces|
      invariant FeedAll(parse, pieces[..r]) == Going(called, buffer)
    {
      assert pieces[..r + 1][..r] == pieces[..r];
      buffer := buffer + pieces[r];
      var stop;
      called, buffer, stop := DrainBuffer(parse, buffer, called);
      if stop.Some? {
        StoppedStays(parse, pieces, r + 1);
        return called, stop.value;
      }
    }
    assert pieces[..|pieces|] == pieces;
    return called, Ended;
  }

  lemma {:induction false} StoppedStays<C>(parse: string -> Frame<C>, pieces: seq<string>, r: nat)
    requires r <= |pieces| && FeedAll(parse, pieces[..r]).Stopped?
    ensures FeedAll(parse, pieces) == FeedAll(parse, pieces[..r])
  {
    if r < |pieces| {
      var n := |pieces| - 1;
      assert pieces[..n][..r] == pieces[..r];
      StoppedStays(parse, pieces[..n], r);
    } else {
      assert pieces[..r] == pieces;
    }
  }

  // ---------- The cuts do not matter ----------

  /** Draining in two goes is draining at once. */
  lemma {:induction false} DrainInTwo<C>(parse: string -> Frame<C>, a: string, b: string, called: seq<C>)
    ensures Drain(parse, a + b, called) == Feed(parse, Drain(parse, a, called), b)
    decreases |a|
  {
    var nl := Newline(a);
    if nl.Some? {
      var i := nl.value;
      FirstNewline(a, b, i);
      assert (a + b)[..i] == a[..i] && (a + b)[i + 1..] == a[i + 1..] + b;
      if a[..i] == "" {
        DrainInTwo(parse, a[i + 1..], b, called);
      } else {
        match parse(a[..i]) {
          case ChunkFrame(c) => DrainInTwo(parse, a[i + 1..], b, called + [c]);
          case OtherFrame => DrainInTwo(parse, a[i + 1..], b, called);
          case _ =>
        }
      }
    }
  }

  lemma {:induction false} ReadsAreOneText<C>(parse: string -> Frame<C>, pieces: seq<string>)
    ensures FeedAll(parse, pieces) == Drain(parse, Flatten(pieces), [])
  {
    if pieces != [] {
      var n := |pieces| - 1;
      ReadsAreOneText(parse, pieces[..n]);
      DrainInTwo(parse, Flatten(pieces[..n]), pieces[n], []);
    }
  }

  /** The callbacks and the final status depend on the text alone, not on how it was cut into reads. */
  lemma CutsDoNotMatter<C>(parse: string -> Frame<C>, pieces: seq<string>, others: seq<string>)
    requires Flatten(pieces) == Flatten(others)
    ensures Finish(FeedAll(parse, pieces)) == Finish(FeedAll(parse, others))
  {
    ReadsAreOneText(parse, pieces);
    ReadsAreOneText(parse, others);
  }

  // ---------- What the text means ----------

  /** The complete lines of a text; a last line without its newline is not one. */
  function Lines(text: string): seq<string>
    decreases |text|
  {
    match Newline(text)
    case None => []
    case Some(nl) => [text[..nl]] + Lines(text[nl + 1..])
  }

  /** A frame that ends the stream, and how. */
  function Ends<C>(f: Frame<C>): Option<Status> {
    match f
    case ErrorFrame(message) => Some(Failed(message))
    case DoneFrame => Some(Ended)
    case _ => None
  }

  function Frames<C>(parse: string -> Frame<C>, lines: seq<string>): seq<Frame<C>> {
    if lines == [] then []
    else (if lines[0] == "" then [] else [parse(lines[0])]) + Frames(parse, lines[1..])
  }

  function Chunks<C>(frames: seq<Frame<C>>): seq<C> {
    if frames == [] then []
    else (if frames[0].ChunkFrame? then [frames[0].chunk] else []) + Chunks(frames[1..])
  }

  /** How many frames are acted on: those before the first that ends the stream. */
  function Live<C>(frames: seq<Frame<C>>): (n: nat)
    ensures n <= |frames|
    ensures forall i :: 0 <= i < n ==> Ends(frames[i]).None?
    ensures n < |frames| ==> Ends(frames[n]).Some?
  {
    if frames == [] || Ends(frames[0]).Some? then 0 else 1 + Live(frames[1..])
  }

  /** The chunks before the first done or error frame, and the status that frame gives. */
  function Meaning<C>(frames: seq<Frame<C>>): (seq<C>, Status) {
    (Chunks(frames[..Live(frames)]), if Live(frames) < |frames| then Ends(frames[Live(frames)]).value else Ended)
  }

  lemma MeaningStops<C>(f: Frame<C>, later: seq<Frame<C>>)
    requires Ends(f).Some?
    ensures Meaning([f] + later) == ([], Ends(f).value)
  {
  }

  lemma MeaningGoesOn<C>(f: Frame<C>, later: seq<Frame<C>>)
    requires Ends(f).None?
    ensures Meaning([f] + later) == ((if f.ChunkFrame? then [f.chunk] else []) + Meaning(later).0, Meaning(later).1)
  {
    var frames := [f] + later;
    assert frames[1..] == later;
    assert frames[..Live(later) + 1][1..] == later[..Live(later)];
  }

  lemma {:induction false} DrainMeaning<C>(parse: string -> Frame<C>, text: string, called: seq<C>)
    ensures var (chunks, status) := Meaning(Frames(parse, Lines(text)));
            Finish(Drain(parse, text, called)) == (called + chunks, status)
    decreases |text|
  {
    match Newline(text) {
      case None =>
        assert called + [] == called;
      case Some(nl) =>
        var line, rest := text[..nl], text[nl + 1..];
        var later := Frames(parse, Lines(rest));
        assert Lines(text)[1..] == Lines(rest);
        if line == "" {
          assert Frames(parse, Lines(text)) == later;
          DrainMeaning(parse, rest, called);
        } else {
          var f := parse(line);
          assert Frames(parse, Lines(text)) == [f] + later;
          assert called + [] == called;
          if Ends(f).Some? {
            MeaningStops(f, later);
          } else {
            var chunk := if f.ChunkFrame? then [f.chunk] else [];
            DrainMeaning(parse, rest, called + chunk);
            MeaningGoesOn(f, later);
            Associate(called, chunk, Meaning(later).0);
          }
        }
    }
  }

  /**
   The reader hands over exactly the chunks before the first done or error frame, takes its status
   from that frame, and ignores blank lines and an unterminated last line.
   */
  lemma StreamMeaning<C>(parse: string -> Frame<C>, pieces: seq<string>)
    ensures Finish(FeedAll(parse, pieces)) == Meaning(Frames(parse, Lines(Flatten(pieces))))
  {
    ReadsAreOneText(parse, pieces);
    DrainMeaning(parse, Flatten(pieces), []);
    var chunks := Meaning(Frames(parse, Lines(Flatten(pieces)))).0;
    assert [] + chunks == chunks;
  }
}
