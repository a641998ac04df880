/** `TrackData` (Bot.Core/Modules/Audio/TrackData.cs): one playlist entry, how an
    input is turned into a track, where its audio stream comes from, and how the
    duration probe's output sets its length.

    The file system, the three stream resolvers and the external probe and
    decoder processes are not visible to the model; they are the uninterpreted
    functions carried by an `Io` value. */
module TrackData {
  import opened Wrappers
  import Text

  /** The resolvers, named by what they resolve. */
  datatype ResolverKind = YouTube | SoundCloud | Livestreamer

  /** The fixed resolver priority list (TrackData.cs:16-21). */
  const Resolvers: seq<ResolverKind> := [YouTube, SoundCloud, Livestreamer]

  /** One buffer handed to the voice client. */
  type Frame = seq<bv8>

  /** What the outside world answers. `canResolve`, `streamUrl` and `trackName`
      are the `IStreamResolver` members of each resolver; `probe` is the lines
      the duration probe prints for a stream url (`None` for a null line);
      `decode` is the audio the decoder produces for a url, started at a time
      given in ticks. */
  datatype Io = Io(
    fileExists: string -> bool,
    fileName: string -> string,
    canResolve: (ResolverKind, string) -> bool,
    streamUrl: (ResolverKind, string) -> string,
    trackName: (ResolverKind, string) -> string,
    probe: Option<string> -> seq<Option<string>>,
    decode: (Option<string>, int) -> seq<Frame>)

  /** `TimeSpan` counts ticks of 100 ns. */
  const TicksPerSecond: int := 10_000_000

  const MinInt32: int := -0x8000_0000
  const MaxInt32: int := 0x7FFF_FFFF

  lemma ResolversListEveryKind(k: ResolverKind)
    ensures k in Resolvers
  {
    assert Resolvers[0] == YouTube && Resolvers[1] == SoundCloud && Resolvers[2] == Livestreamer;
  }

  /** The resolver `Resolvers.FirstOrDefault(r => r.CanResolve(input))` picks. */
  function FirstResolver(input: string, io: Io): (r: Option<ResolverKind>)
    ensures r.Some? ==> io.canResolve(r.value, input)
    ensures r == Some(SoundCloud) ==> !io.canResolve(YouTube, input)
    ensures r == Some(Livestreamer) ==> !io.canResolve(YouTube, input) && !io.canResolve(SoundCloud, input)
    ensures r.None? <==> forall k :: !io.canResolve(k, input)
  {
    var i := FirstIndex(Resolvers, k => io.canResolve(k, input));
    if i.Some? then Some(Resolvers[i.value])
    else
      assert forall k :: !io.canResolve(k, input) by {
        forall k ensures !io.canResolve(k, input) {
          ResolversListEveryKind(k);
        }
      }
      None
  }

  /** Where `GetStream` takes the stream from, stated as a priority: a resolver
      that accepts the location beats the cached resolver, which beats a local
      file. */
  function StreamSource(location: string, cached: Option<ResolverKind>, io: Io): (r: Option<string>)
    ensures r.None? <==> FirstResolver(location, io).None? && cached.None? && !io.fileExists(location)
    ensures FirstResolver(location, io).Some? ==> r == Some(io.streamUrl(FirstResolver(location, io).value, location))
    ensures FirstResolver(location, io).None? && cached.Some? ==> r == Some(io.streamUrl(cached.value, location))
    ensures FirstResolver(location, io).None? && cached.None? && io.fileExists(location) ==> r == Some(location)
  {
    match FirstResolver(location, io)
    case Some(r) => Some(io.streamUrl(r, location))
    case None =>
      if cached.Some? then Some(io.streamUrl(cached.value, location))
      else if io.fileExists(location) then Some(location)
      else None
  }

  /** `int.Parse` with `NumberStyles.Integer` under the invariant culture:
      surrounding white space, an optional sign, at least one decimal digit,
      and a value inside the 32-bit range; `None` where it throws. */
  function ParseInt32(s: string): (r: Option<int>)
    ensures r.Some? ==> MinInt32 <= r.value <= MaxInt32
    ensures r.Some? ==> exists i :: 0 <= i < |s| && Text.IsDigit(s[i])
  {
    var t := Text.TrimWhite(s);
    var signed := t != [] && (t[0] == '-' || t[0] == '+');
    var digits := if signed then t[1..] else t;
    if digits == [] || !Text.AllDigits(digits) then None
    else
      var magnitude: int := Text.DecimalValue(digits);
      var v := if signed && t[0] == '-' then -magnitude else magnitude;
      if MinInt32 <= v <= MaxInt32 then
        assert Text.IsDigit(digits[0]);
        assert exists i :: 0 <= i < |s| && Text.IsDigit(s[i]) by {
          var k := |Text.TrimStartWhite(s)|;
          assert t == Text.TrimStartWhite(s)[..|t|];
          assert Text.TrimStartWhite(s) == s[|s| - k..];
          if signed {
            assert s[|s| - k + 1] == digits[0];
          } else {
            assert s[|s| - k] == digits[0];
          }
        }
        Some(v)
      else None
  }

  /** A plain run of decimal digits inside the 32-bit range reads as its value. */
  lemma ParseInt32OfDigits(d: string)
    requires d != [] && Text.AllDigits(d) && Text.DecimalValue(d) <= MaxInt32
    ensures ParseInt32(d) == Some(Text.DecimalValue(d))
  {
    assert !Text.IsWhite(d[0]) && !Text.IsWhite(d[|d| - 1]);
    assert Text.TrimStartWhite(d) == d;
    assert Text.TrimEndWhite(d) == d;
  }

  /** What one line of probe output does to the length. */
  datatype ProbeLine =
    | Skip           // null, empty or "N/A": the handler returns
    | Seconds(n: int) // the handler sets the length to `n` seconds
    | Fault          // the handler throws

  /** The output handler of `GetLength`: a line without a '.' makes `Remove(-1)`
      throw, and a prefix that `int.Parse` rejects throws too. */
  function ParseProbeLine(line: Option<string>): (r: ProbeLine)
    ensures line.None? || line == Some([]) || line == Some("N/A") ==> r == Skip
    ensures line.Some? && line.value != [] && line.value != "N/A" && '.' !in line.value ==> r == Fault
    ensures r.Seconds? ==> MinInt32 <= r.n <= MaxInt32
  {
    match line
    case None => Skip
    case Some(s) =>
      if s == [] || s == "N/A" then Skip
      else
        match Text.IndexOf(s, '.')
        case None => Fault
        case Some(dot) =>
          match ParseInt32(s[..dot])
          case None => Fault
          case Some(n) => Seconds(n)
  }

  /** The probe's usual output, whole seconds, a '.', a fraction, is truncated to
      the whole seconds. */
  lemma ProbeLineTruncates(whole: string, fraction: string)
    requires whole != [] && Text.AllDigits(whole) && Text.DecimalValue(whole) <= MaxInt32
    ensures ParseProbeLine(Some(whole + "." + fraction)) == Seconds(Text.DecimalValue(whole))
  {
    var s := whole + "." + fraction;
    assert s[|whole|] == '.';
    assert '.' !in whole by {
      forall i | 0 <= i < |whole| ensures whole[i] != '.' {
        assert Text.IsDigit(whole[i]);
      }
    }
    assert s[..|whole|] == whole;
    assert Text.IndexOf(s, '.') == Some(|whole|) by {
      var k := Text.IndexOf(s, '.');
      assert k.Some?;
    }
    assert s != [] && s != "N/A" by { assert s[|whole|] == '.'; }
    ParseInt32OfDigits(whole);
  }

  /** Length and whether a handler threw, after the probe's lines are handled
      in order. */
  datatype ProbeResult = ProbeResult(length: int, faulted: bool)

  /** Some line of the probe's output makes the handler throw. */
  predicate HasFaultLine(lines: seq<Option<string>>) {
    exists i :: 0 <= i < |lines| && ParseProbeLine(lines[i]) == Fault
  }

  /** Some line of the probe's output sets the length to `length` ticks. */
  predicate SetsLength(lines: seq<Option<string>>, length: int) {
    exists i :: 0 <= i < |lines| && ParseProbeLine(lines[i]).Seconds? &&
                length == ParseProbeLine(lines[i]).n * TicksPerSecond
  }

  /** How the two predicates split over the first line and the rest. */
  lemma ProbeLinesSplit(lines: seq<Option<string>>)
    requires lines != []
    ensures HasFaultLine(lines) <==> ParseProbeLine(lines[0]) == Fault || HasFaultLine(lines[1..])
    ensures forall length :: SetsLength(lines[1..], length) ==> SetsLength(lines, length)
    ensures ParseProbeLine(lines[0]).Seconds? ==> SetsLength(lines, ParseProbeLine(lines[0]).n * TicksPerSecond)
  {
    if HasFaultLine(lines) && ParseProbeLine(lines[0]) != Fault {
      var i :| 0 <= i < |lines| && ParseProbeLine(lines[i]) == Fault;
      assert lines[1..][i - 1] == lines[i];
    }
    if HasFaultLine(lines[1..]) {
      var j :| 0 <= j < |lines[1..]| && ParseProbeLine(lines[1..][j]) == Fault;
      assert lines[j + 1] == lines[1..][j];
    }
    forall length | SetsLength(lines[1..], length) ensures SetsLength(lines, length) {
      var j :| 0 <= j < |lines[1..]| && ParseProbeLine(lines[1..][j]).Seconds? &&
               length == ParseProbeLine(lines[1..][j]).n * TicksPerSecond;
      assert lines[j + 1] == lines[1..][j];
    }
  }

  /** The probe's lines applied in order to a starting length; a throwing
      handler ends the run. The run faults exactly when some line throws, and
      the length is the starting one or the one some line set. */
  function ApplyProbe(lines: seq<Option<string>>, length: int): (r: ProbeResult)
    ensures r.faulted <==> HasFaultLine(lines)
    ensures r.length == length || SetsLength(lines, r.length)
    decreases |lines|
  {
    if lines == [] then ProbeResult(length, false)
    else
      ProbeLinesSplit(lines);
      match ParseProbeLine(lines[0])
      case Skip => ApplyProbe(lines[1..], length)
      case Seconds(n) => ApplyProbe(lines[1..], n * TicksPerSecond)
      case Fault => ProbeResult(length, true)
  }

  /** Output made only of skipped lines leaves the length as it was. */
  lemma {:induction false} ProbeOfSkipsKeepsLength(lines: seq<Option<string>>, length: int)
    requires forall i :: 0 <= i < |lines| ==> ParseProbeLine(lines[i]) == Skip
    ensures ApplyProbe(lines, length) == ProbeResult(length, false)
    decreases |lines|
  {
    if lines != [] {
      ProbeOfSkipsKeepsLength(lines[1..], length);
    }
  }

  /** Output holding one duration line among skipped lines sets the length to
      that many whole seconds. */
  lemma {:induction false} ProbeOfOneDuration(before: seq<Option<string>>, whole: string, fraction: string,
                                              after: seq<Option<string>>, length: int)
    requires forall i :: 0 <= i < |before| ==> ParseProbeLine(before[i]) == Skip
    requires forall i :: 0 <= i < |after| ==> ParseProbeLine(after[i]) == Skip
    requires whole != [] && Text.AllDigits(whole) && Text.DecimalValue(whole) <= MaxInt32
    ensures ApplyProbe(before + [Some(whole + "." + fraction)] + after, length)
         == ProbeResult(Text.DecimalValue(whole) * TicksPerSecond, false)
    decreases |before|
  {
    var lines := before + [Some(whole + "." + fraction)] + after;
    if before == [] {
      assert lines == [Some(whole + "." + fraction)] + after;
      assert lines[1..] == after;
      ProbeLineTruncates(whole, fraction);
      ProbeOfSkipsKeepsLength(after, Text.DecimalValue(whole) * TicksPerSecond);
    } else {
      assert lines[0] == before[0];
      assert lines[1..] == before[1..] + [Some(whole + "." + fraction)] + after;
      ProbeOfOneDuration(before[1..], whole, fraction, after, length);
    }
  }

  class Track {
    /** Fixed at construction (`Location { get; }`). */
    const location: string
    /** `Name { get; private set; }` is assigned only by the constructors. */
    const name: string
    /** `Length`, in ticks; zero means "not probed yet". */
    var length: int
    /** The resolver `Parse` found; never serialised, never set by `GetStream`. */
    var cached: Option<ResolverKind>

    /** `TrackData(location, name)` (TrackData.cs:38-42). */
    constructor (location: string, name: string)
      ensures this.location == location && this.name == name
      ensures length == 0 && cached == None
    {
      this.location := location;
      this.name := name;
      length := 0;
      cached := None;
    }

    /** The JSON constructor (TrackData.cs:30-36). */
    constructor Restore(location: string, length: int, name: string)
      ensures this.location == location && this.name == name
      ensures this.length == length && cached == None
    {
      this.location := location;
      this.name := name;
      this.length := length;
      cached := None;
    }

    /** `GetLength`: runs the probe on `url` and applies each output line. */
    method GetLength(url: Option<string>, io: Io) returns (faulted: bool)
      modifies this`length
      ensures ProbeResult(length, faulted) == ApplyProbe(io.probe(url), old(length))
    {
      var lines := io.probe(url);
      var i := 0;
      faulted := false;
      while i < |lines|
        invariant 0 <= i <= |lines|
        invariant ApplyProbe(lines[i..], length) == ApplyProbe(lines, old(length))
      {
        assert lines[i..][1..] == lines[i + 1..];
        match ParseProbeLine(lines[i]) {
          case Skip =>
          case Seconds(n) =>
            length := n * TicksPerSecond;
          case Fault =>
            faulted := true;
            return;
        }
        i := i + 1;
      }
    }

    /** `GetStream`: each later source overwrites the earlier one, and the length
        is probed only while it is still zero. */
    method GetStream(io: Io) returns (url: Option<string>, probeFaulted: bool)
      modifies this`length
      ensures url == StreamSource(location, cached, io)
      ensures old(length) != 0 ==> length == old(length) && !probeFaulted
      ensures old(length) == 0 ==> ProbeResult(length, probeFaulted) == ApplyProbe(io.probe(url), 0)
    {
      url := None;
      if io.fileExists(location) {
        url := Some(location);
      }
      if cached.Some? {
        url := Some(io.streamUrl(cached.value, location));
      }
      var resolver := FirstResolver(location, io);
      if resolver.Some? {
        url := Some(io.streamUrl(resolver.value, location));
      }
      probeFaulted := false;
      if length == 0 {
        probeFaulted := GetLength(url, io);
      }
    }
  }

  /** `TrackData.Parse`: an existing file first, then the first resolver in
      priority order that accepts the input; `null` when neither applies. */
  method Parse(input: string, io: Io) returns (t: Track?)
    ensures t == null <==> !io.fileExists(input) && FirstResolver(input, io).None?
    ensures t != null ==> fresh(t) && t.location == input && t.length == 0
    ensures t != null && io.fileExists(input) ==> t.name == io.fileName(input) && t.cached == None
    ensures t != null && !io.fileExists(input) ==>
              t.cached == FirstResolver(input, io) && t.name == io.trackName(t.cached.value, input)
  {
    if io.fileExists(input) {
      t := new Track(input, io.fileName(input));
      return;
    }
    var i := 0;
    while i < |Resolvers|
      invariant 0 <= i <= |Resolvers|
      invariant forall j :: 0 <= j < i ==> !io.canResolve(Resolvers[j], input)
    {
      var resolver := Resolvers[i];
      if io.canResolve(resolver, input) {
        t := new Track(input, io.trackName(resolver, input));
        t.cached := Some(resolver);
        assert FirstResolver(input, io) == Some(resolver) by {
          var f := FirstIndex(Resolvers, k => io.canResolve(k, input));
          assert f.Some? && f.value == i;
        }
        return;
      }
      i := i + 1;
    }
    forall k ensures !io.canResolve(k, input) {
      ResolversListEveryKind(k);
    }
    t := null;
  }
}
