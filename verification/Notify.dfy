/** The notify datagram: what the worker sends (internal/sdnotify/sdnotify_unix.go) and what the supervisor
    reads out of it (internal/supervisor/notify.go). Characters stand for bytes. */
module Notify {
  import opened Common

  datatype Kind = Ready | Watchdog | Stopping

  /** The read buffer of the listener; a longer datagram is cut off. */
  const BUFFER_SIZE: nat := 4096

  // ---------------------------------------------------------------- Sending

  predicate Clean(pair: string) {
    '\n' !in pair && '\r' !in pair
  }

  predicate AllClean(pairs: seq<string>) {
    forall i :: 0 <= i < |pairs| ==> Clean(pairs[i])
  }

  function Join(lines: seq<string>): string {
    if lines == [] then ""
    else if |lines| == 1 then lines[0]
    else lines[0] + ['\n'] + Join(lines[1..])
  }

  datatype SendResult = Written(datagram: string) | NotSupervised | HasNewline(pair: string) | WriteFailed

  class Client {
    var connected: bool

    constructor (dialled: bool)
      ensures connected == dialled
    {
      connected := dialled;
    }

    /** `fault`: the socket refuses the datagram. */
    method Send(pairs: seq<string>, fault: bool) returns (r: SendResult)
      ensures r == NotSupervised <==> !connected
      ensures r.HasNewline? <==> connected && !AllClean(pairs)
      ensures r.HasNewline? ==>
                exists i :: 0 <= i < |pairs| && r.pair == pairs[i] && !Clean(pairs[i]) && AllClean(pairs[..i])
      ensures r == WriteFailed <==> connected && AllClean(pairs) && fault
      ensures r.Written? <==> connected && AllClean(pairs) && !fault
      ensures r.Written? ==> r.datagram == Join(pairs)
    {
      if !connected {
        return NotSupervised;
      }
      for i := 0 to |pairs|
        invariant AllClean(pairs[..i])
      {
        if '\n' in pairs[i] || '\r' in pairs[i] {
          return HasNewline(pairs[i]);
        }
      }
      assert pairs[..|pairs|] == pairs;
      r := if fault then WriteFailed else Written(Join(pairs));
    }

    method Close()
      modifies this
      ensures !connected
    {
      connected := false;
    }
  }

  // ---------------------------------------------------------------- Reading

  /** Split at every newline. */
  function Lines(s: string): (r: seq<string>)
    ensures r != []
  {
    if s == [] then [""]
    else
      var rest := Lines(s[1..]);
      if s[0] == '\n' then [""] + rest else [[s[0]] + rest[0]] + rest[1..]
  }

  function TrimCR(line: string): string {
    if line != [] && Last(line) == '\r' then TrimCR(Front(line)) else line
  }

  datatype Pair = Pair(key: string, value: string)

  /** Key and value around the first '='. */
  function Cut(line: string): Option<Pair> {
    if line == [] then None
    else if line[0] == '=' then Some(Pair("", line[1..]))
    else match Cut(line[1..])
      case None => None
      case Some(p) => Some(Pair([line[0]] + p.key, p.value))
  }

  function KindOf(raw: string): Option<Kind> {
    var line := TrimCR(raw);
    if line == "" then None
    else match Cut(line)
      case None => None
      case Some(p) =>
        if p.value != "1" then None
        else if p.key == "READY" then Some(Ready)
        else if p.key == "WATCHDOG" then Some(Watchdog)
        else if p.key == "STOPPING" then Some(Stopping)
        else None
  }

  function Kinds(lines: seq<string>): seq<Kind> {
    if lines == [] then []
    else
      var front := Kinds(Front(lines));
      match KindOf(Last(lines))
      case None => front
      case Some(k) => front + [k]
  }

  /** The line loop of parseNotifyFrame. */
  method ParseNotifyFrame(frame: string) returns (kinds: seq<Kind>)
    ensures kinds == Kinds(Lines(frame))
  {
    kinds := [];
    var lines := Lines(frame);
    for i := 0 to |lines|
      invariant kinds == Kinds(lines[..i])
    {
      assert Front(lines[..i + 1]) == lines[..i] && Last(lines[..i + 1]) == lines[i];
      var line := TrimCR(lines[i]);
      if line == "" {
        continue;
      }
      var cut := Cut(line);
      if cut == None {
        continue;
      }
      if cut.value.key == "READY" {
        if cut.value.value == "1" {
          kinds := kinds + [Ready];
        }
      } else if cut.value.key == "WATCHDOG" {
        if cut.value.value == "1" {
          kinds := kinds + [Watchdog];
        }
      } else if cut.value.key == "STOPPING" {
        if cut.value.value == "1" {
          kinds := kinds + [Stopping];
        }
      }
    }
    assert lines[..|lines|] == lines;
  }

  function Received(datagram: string): string {
    if |datagram| <= BUFFER_SIZE then datagram else datagram[..BUFFER_SIZE]
  }

  // -------------------------------------------------------------- Round trip

  /** The three pairs the protocol gives a meaning to. */
  function Meaning(pair: string): Option<Kind> {
    if pair == "READY=1" then Some(Ready)
    else if pair == "WATCHDOG=1" then Some(Watchdog)
    else if pair == "STOPPING=1" then Some(Stopping)
    else None
  }

  function Meanings(pairs: seq<string>): seq<Kind> {
    if pairs == [] then []
    else match Meaning(pairs[0])
      case None => Meanings(pairs[1..])
      case Some(k) => [k] + Meanings(pairs[1..])
  }

  function Returns(n: nat): string {
    seq(n, _ => '\r')
  }

  /** Each pair followed by some carriage returns: the lines of a frame with any mix of line ends. */
  function Decorated(pairs: seq<string>, crs: seq<nat>): seq<string>
    requires |crs| == |pairs|
  {
    seq(|pairs|, i requires 0 <= i < |pairs| => pairs[i] + Returns(crs[i]))
  }

  lemma {:induction false} LinesOfPlain(s: string)
    requires '\n' !in s
    ensures Lines(s) == [s]
  {
    if s != [] {
      LinesOfPlain(s[1..]);
      assert [s[0]] + s[1..] == s;
    }
  }

  lemma {:induction false} LinesOfPrefix(s: string, rest: string)
    requires '\n' !in s
    ensures Lines(s + ['\n'] + rest) == [s] + Lines(rest)
  {
    var all := s + ['\n'] + rest;
    if s == [] {
      assert all[1..] == rest;
    } else {
      LinesOfPrefix(s[1..], rest);
      assert all[1..] == s[1..] + ['\n'] + rest;
      assert [s[0]] + s[1..] == s;
    }
  }

  lemma {:induction false} LinesOfJoin(lines: seq<string>)
    requires lines != [] && forall i :: 0 <= i < |lines| ==> '\n' !in lines[i]
    ensures Lines(Join(lines)) == lines
  {
    if |lines| == 1 {
      LinesOfPlain(lines[0]);
    } else {
      LinesOfJoin(lines[1..]);
      LinesOfPrefix(lines[0], Join(lines[1..]));
      assert [lines[0]] + lines[1..] == lines;
    }
  }

  lemma {:induction false} TrimDecorated(pair: string, n: nat)
    requires '\r' !in pair
    ensures TrimCR(pair + Returns(n)) == pair
  {
    if n == 0 {
      assert pair + Returns(0) == pair;
      if pair != [] {
        assert Last(pair) in pair;
      }
    } else {
      TrimDecorated(pair, n - 1);
      assert Front(pair + Returns(n)) == pair + Returns(n - 1);
    }
  }

  /** Cutting and gluing are inverse, and the key has no '='. */
  lemma {:induction false} CutIsExact(line: string, key: string, value: string)
    requires '=' !in key
    ensures Cut(line) == Some(Pair(key, value)) <==> line == key + "=" + value
  {
    if line == [] {
    } else if line[0] == '=' {
      if key != [] {
        assert key[0] in key;
      }
      assert line == "=" + line[1..];
    } else {
      assert line == [line[0]] + line[1..];
      if key != [] && key[0] == line[0] {
        assert key == [key[0]] + key[1..];
        CutIsExact(line[1..], key[1..], value);
        CutIsExactCons(line, key, value);
      } else if Cut(line).Some? {
        assert Cut(line).value.key[0] == line[0];
      }
    }
  }

  lemma CutIsExactCons(line: string, key: string, value: string)
    requires line != [] && line[0] != '=' && key != [] && key[0] == line[0]
    requires Cut(line[1..]) == Some(Pair(key[1..], value)) <==> line[1..] == key[1..] + "=" + value
    ensures Cut(line) == Some(Pair(key, value)) <==> line == key + "=" + value
  {
    var glued := key + "=" + value;
    assert glued[1..] == key[1..] + "=" + value;
    assert line == glued <==> line[1..] == glued[1..] by {
      assert line == [line[0]] + line[1..] && glued == [glued[0]] + glued[1..];
    }
    match Cut(line[1..])
    case None =>
    case Some(p) =>
      assert ([line[0]] + p.key)[1..] == p.key;
      assert key == [key[0]] + key[1..];
  }

  lemma KindIsMeaning(pair: string, n: nat)
    requires Clean(pair)
    ensures KindOf(pair + Returns(n)) == Meaning(pair)
  {
    TrimDecorated(pair, n);
    CutIsExact(pair, "READY", "1");
    CutIsExact(pair, "WATCHDOG", "1");
    CutIsExact(pair, "STOPPING", "1");
    assert "READY" + "=" + "1" == "READY=1";
    assert "WATCHDOG" + "=" + "1" == "WATCHDOG=1";
    assert "STOPPING" + "=" + "1" == "STOPPING=1";
    match Cut(pair)
    case None =>
    case Some(p) => assert Pair(p.key, p.value) == p;
  }

  function MeaningsOfOne(pair: string): seq<Kind> {
    match Meaning(pair)
    case None => []
    case Some(k) => [k]
  }

  lemma MeaningsCons(pair: string, rest: seq<string>)
    ensures Meanings([pair] + rest) == MeaningsOfOne(pair) + Meanings(rest)
  {
    hide Meaning;
    assert ([pair] + rest)[1..] == rest;
  }

  lemma Assoc<T>(a: seq<T>, b: seq<T>, c: seq<T>)
    ensures a + (b + c) == (a + b) + c
  {
  }

  lemma Uncons<T>(s: seq<T>)
    requires s != []
    ensures s == [s[0]] + s[1..]
  {
  }

  lemma {:induction false} MeaningsConcat(a: seq<string>, b: seq<string>)
    ensures Meanings(a + b) == Meanings(a) + Meanings(b)
  {
    if a == [] {
      assert a + b == b;
    } else {
      hide Meanings, MeaningsOfOne;
      var head, tail := a[0], a[1..];
      Uncons(a);
      Assoc([head], tail, b);
      MeaningsConcat(tail, b);
      MeaningsCons(head, tail);
      MeaningsCons(head, tail + b);
      Assoc(MeaningsOfOne(head), Meanings(tail), Meanings(b));
    }
  }

  lemma {:induction false} KindsOfDecorated(pairs: seq<string>, crs: seq<nat>)
    requires |crs| == |pairs| && AllClean(pairs)
    ensures Kinds(Decorated(pairs, crs)) == Meanings(pairs)
  {
    if pairs != [] {
      var p, c := Front(pairs), Front(crs);
      assert forall i :: 0 <= i < |p| ==> p[i] == pairs[i];
      KindsOfDecorated(p, c);
      assert Front(Decorated(pairs, crs)) == Decorated(p, c);
      hide Meanings, KindOf, Meaning;
      KindIsMeaning(Last(pairs), Last(crs));
      MeaningsSnoc(pairs);
    }
  }

  lemma MeaningsSnoc(pairs: seq<string>)
    requires pairs != []
    ensures Meanings(pairs) == Meanings(Front(pairs)) + MeaningsOfOne(Last(pairs))
  {
    assert Meanings([]) == [];
    hide Meanings, MeaningsOfOne;
    MeaningsCons(Last(pairs), []);
    assert [Last(pairs)] + [] == [Last(pairs)] && Front(pairs) + [Last(pairs)] == pairs;
    MeaningsConcat(Front(pairs), [Last(pairs)]);
  }

  /** Whatever Send accepts, sent with any mix of LF and CRLF line ends, is read back as exactly its
      recognised pairs, in order, as long as the datagram fits the buffer. */
  lemma FramingRoundTrip(pairs: seq<string>, crs: seq<nat>)
    requires |crs| == |pairs| && AllClean(pairs)
    requires |Join(Decorated(pairs, crs))| <= 4096
    ensures Kinds(Lines(Received(Join(Decorated(pairs, crs))))) == Meanings(pairs)
  {
    var lines := Decorated(pairs, crs);
    if pairs == [] {
      assert Lines("") == [""];
      assert Front([""]) == [];
      assert KindOf("") == None;
    } else {
      forall i | 0 <= i < |lines| ensures '\n' !in lines[i] {
        assert Clean(pairs[i]);
      }
      LinesOfJoin(lines);
      KindsOfDecorated(pairs, crs);
    }
  }

  /** The plain datagram of Send. */
  lemma SendRoundTrip(pairs: seq<string>)
    requires AllClean(pairs) && |Join(pairs)| <= 4096
    ensures Kinds(Lines(Received(Join(pairs)))) == Meanings(pairs)
  {
    var none := seq(|pairs|, _ => 0);
    assert Decorated(pairs, none) == pairs by {
      forall i | 0 <= i < |pairs| ensures Decorated(pairs, none)[i] == pairs[i] {
        assert pairs[i] + Returns(0) == pairs[i];
      }
    }
    FramingRoundTrip(pairs, none);
  }

  /** Unknown pairs slipped in anywhere, with any mix of line ends, change nothing in what the parser returns. */
  lemma UnknownPairsAreIgnored(a: seq<string>, unknown: string, b: seq<string>, with: seq<nat>, without: seq<nat>)
    requires Meaning(unknown) == None && AllClean(a + [unknown] + b) && AllClean(a + b)
    requires |with| == |a + [unknown] + b| && |without| == |a + b|
    requires |Join(Decorated(a + [unknown] + b, with))| <= BUFFER_SIZE
    requires |Join(Decorated(a + b, without))| <= BUFFER_SIZE
    ensures Kinds(Lines(Received(Join(Decorated(a + [unknown] + b, with))))) ==
            Kinds(Lines(Received(Join(Decorated(a + b, without)))))
  {
    assert [unknown][1..] == [] && Meanings([unknown]) == [];
    hide Meanings, Kinds, Lines, Join, Received, Decorated, Meaning;
    FramingRoundTrip(a + [unknown] + b, with);
    FramingRoundTrip(a + b, without);
    MeaningsConcat(a + [unknown], b);
    MeaningsConcat(a, [unknown]);
    MeaningsConcat(a, b);
    assert Meanings(a) + [] == Meanings(a);
  }

  // -------------------------------------------------------------- Datagrams that do not fit

  /** How many pairs lie wholly before the line in which byte `n` falls. */
  function WholeBefore(pairs: seq<string>, n: nat): (k: nat)
    requires n <= |Join(pairs)| && pairs != []
    ensures k < |pairs|
  {
    if n <= |pairs[0]| then 0 else 1 + WholeBefore(pairs[1..], n - |pairs[0]| - 1)
  }

  /** What is left of that line. */
  function Piece(pairs: seq<string>, n: nat): (piece: string)
    requires n <= |Join(pairs)| && pairs != []
    ensures piece <= pairs[WholeBefore(pairs, n)]
  {
    if n <= |pairs[0]| then pairs[0][..n] else Piece(pairs[1..], n - |pairs[0]| - 1)
  }

  lemma {:induction false} CutJoin(pairs: seq<string>, n: nat)
    requires n <= |Join(pairs)| && pairs != []
    ensures Join(pairs)[..n] == Join(pairs[..WholeBefore(pairs, n)] + [Piece(pairs, n)])
  {
    var k, piece := WholeBefore(pairs, n), Piece(pairs, n);
    if n <= |pairs[0]| {
      assert pairs[..k] + [piece] == [piece];
    } else {
      var rest, m := pairs[1..], n - |pairs[0]| - 1;
      CutJoin(rest, m);
      var cut := rest[..WholeBefore(rest, m)] + [piece];
      assert pairs[..k] + [piece] == [pairs[0]] + cut;
      assert ([pairs[0]] + cut)[1..] == cut;
    }
  }

  lemma PrefixIsClean(pair: string, piece: string)
    requires Clean(pair) && piece <= pair
    ensures Clean(piece)
  {
  }

  /** A datagram longer than the buffer: the parser returns the recognised pairs wholly before the cut, and
      then whatever the cut piece happens to mean. */
  lemma TruncatedFrame(pairs: seq<string>)
    requires AllClean(pairs) && |Join(pairs)| > BUFFER_SIZE
    ensures pairs != []
    ensures var k, piece := WholeBefore(pairs, BUFFER_SIZE), Piece(pairs, BUFFER_SIZE);
            Kinds(Lines(Received(Join(pairs)))) == Meanings(pairs[..k]) + Meanings([piece])
  {
    var k, piece := WholeBefore(pairs, BUFFER_SIZE), Piece(pairs, BUFFER_SIZE);
    var seen := pairs[..k] + [piece];
    CutJoin(pairs, BUFFER_SIZE);
    PrefixIsClean(pairs[k], piece);
    assert Received(Join(pairs)) == Join(seen) == Received(Join(seen));
    SendRoundTrip(seen);
    MeaningsConcat(pairs[..k], [piece]);
  }

  /** What Send writes is read back as exactly its recognised pairs iff it fits the buffer, or the cut piece
      means what all the pairs from the cut line on mean together. */
  lemma FramingIsLosslessIff(pairs: seq<string>)
    requires AllClean(pairs)
    ensures Kinds(Lines(Received(Join(pairs)))) == Meanings(pairs) <==>
            || |Join(pairs)| <= 4096
            || (pairs != []
                && Meanings([Piece(pairs, 4096)]) == Meanings(pairs[WholeBefore(pairs, 4096)..]))
  {
    hide Lines, Kinds, Join, Meanings, Piece, WholeBefore, Received;
    if |Join(pairs)| <= BUFFER_SIZE {
      SendRoundTrip(pairs);
    } else {
      TruncatedFrame(pairs);
      var k := WholeBefore(pairs, BUFFER_SIZE);
      MeaningsConcat(pairs[..k], pairs[k..]);
      assert pairs[..k] + pairs[k..] == pairs;
      SamePrefix(Meanings(pairs[..k]), Meanings([Piece(pairs, BUFFER_SIZE)]), Meanings(pairs[k..]));
    }
  }

  lemma SamePrefix<T>(a: seq<T>, b: seq<T>, c: seq<T>)
    ensures a + b == a + c <==> b == c
  {
    assert (a + b)[|a|..] == b && (a + c)[|a|..] == c;
  }

  /** So a pair long enough to fill the buffer hides the READY after it. */
  lemma LongDatagramLosesReady(pad: string)
    requires Clean(pad) && |pad| >= BUFFER_SIZE
    ensures Kinds(Lines(Received(Join([pad, "READY=1"])))) == []
    ensures Meanings([pad, "READY=1"]) == [Ready]
  {
    var pairs := [pad, "READY=1"];
    assert pairs[1..] == ["READY=1"];
    assert ["READY=1"][1..] == [];
    assert AllClean(pairs);
    TruncatedFrame(pairs);
    var piece := Piece(pairs, BUFFER_SIZE);
    assert |piece| == BUFFER_SIZE;
    assert [piece][1..] == [];
  }

  /** And a pair that means nothing can be cut down to one that does. */
  lemma CutInventsReady(pad: string)
    requires Clean(pad) && |pad| == BUFFER_SIZE - 8 && Meaning(pad) == None
    ensures Kinds(Lines(Received(Join([pad, "READY=1x"])))) == [Ready]
    ensures Meanings([pad, "READY=1x"]) == []
  {
    var pairs := [pad, "READY=1x"];
    assert pairs[1..] == ["READY=1x"];
    assert ["READY=1x"][1..] == [];
    assert AllClean(pairs);
    TruncatedFrame(pairs);
    assert "READY=1x"[..7] == "READY=1";
    assert pairs[..1] == [pad] && [pad][1..] == [];
    assert ["READY=1"][1..] == [];
  }
}
