/** The text in a ticket's QR code, the strict parser of the server and the lenient one of the scanner. */
module QrPayload {
  import opened Wrappers

  datatype Payload = Payload(ticketId: string, token: string, gate: string)

  function Build(p: Payload): string {
    p.ticketId + ":" + p.token + ":" + p.gate
  }

  /** `s.split(':')`. */
  function Split(s: string): (parts: seq<string>)
    ensures |parts| > 0
  {
    if s == "" then [""]
    else if s[0] == ':' then [""] + Split(s[1..])
    else
      var rest := Split(s[1..]);
      [[s[0]] + rest[0]] + rest[1..]
  }

  /** `parts.join(':')`. */
  function Join(parts: seq<string>): string {
    if parts == [] then ""
    else if |parts| == 1 then parts[0]
    else parts[0] + ":" + Join(parts[1..])
  }

  /** What `trim` removes: WhiteSpace and LineTerminator of ECMAScript. */
  predicate IsSpace(c: char) {
    || '\t' <= c <= '\r' || c == ' ' || c == '\U{00a0}' || c == '\U{1680}' || '\U{2000}' <= c <= '\U{200a}'
    || c == '\U{2028}' || c == '\U{2029}' || c == '\U{202f}' || c == '\U{205f}' || c == '\U{3000}' || c == '\U{feff}'
  }

  function Trim(s: string): string {
    if s != "" && IsSpace(s[0]) then Trim(s[1..])
    else if s != "" && IsSpace(s[|s| - 1]) then Trim(s[..|s| - 1])
    else s
  }

  function ParseStrict(s: string): Option<Payload> {
    var parts := Split(s);
    if |parts| != 3 || parts[0] == "" || parts[1] == "" || parts[2] == "" then None
    else Some(Payload(parts[0], parts[1], parts[2]))
  }

  function ParseScanned(raw: string): Option<Payload> {
    var parts := Split(Trim(raw));
    if |parts| < 3 then None
    else
      var gate := Join(parts[2..]);
      if parts[0] == "" || parts[1] == "" || gate == "" then None else Some(Payload(parts[0], parts[1], gate))
  }

  // ------------------------------------------------------------------ splitting and joining

  predicate NoColon(s: string) {
    ':' !in s
  }

  /** Splitting is undone by joining. */
  lemma {:induction false} JoinOfSplit(s: string)
    ensures Join(Split(s)) == s
    ensures forall part :: part in Split(s) ==> NoColon(part)
  {
    if s != "" {
      JoinOfSplit(s[1..]);
      var rest := Split(s[1..]);
      if s[0] == ':' {
        assert Split(s)[1..] == rest;
      } else {
        assert Split(s)[1..] == rest[1..];
        assert NoColon(rest[0]);
      }
    }
  }

  /** Joining is undone by splitting, for parts without a colon. */
  lemma {:induction false} SplitOfJoin(parts: seq<string>)
    requires parts != [] && forall part :: part in parts ==> NoColon(part)
    ensures Split(Join(parts)) == parts
    decreases |parts|, |parts[0]|
  {
    var s := Join(parts);
    assert NoColon(parts[0]);
    if parts[0] != "" {
      var shorter := [parts[0][1..]] + parts[1..];
      assert Join(shorter) == s[1..];
      SplitOfJoin(shorter);
      assert [s[0]] + shorter[0] == parts[0] && shorter[1..] == parts[1..];
      assert [parts[0]] + parts[1..] == parts;
    } else if |parts| > 1 {
      assert s[1..] == Join(parts[1..]);
      SplitOfJoin(parts[1..]);
    } else {
      assert parts == [""];
    }
  }

  lemma JoinOfThree(a: string, b: string, rest: seq<string>)
    requires rest != []
    ensures Join([a, b] + rest) == Build(Payload(a, b, Join(rest)))
  {
    assert ([a, b] + rest)[1..] == [b] + rest && ([b] + rest)[1..] == rest;
  }

  /** A built text splits into its id, its token and the parts of its gate. */
  lemma SplitOfBuild(p: Payload)
    requires NoColon(p.ticketId) && NoColon(p.token)
    ensures Split(Build(p)) == [p.ticketId, p.token] + Split(p.gate)
  {
    JoinOfSplit(p.gate);
    JoinOfThree(p.ticketId, p.token, Split(p.gate));
    SplitOfJoin([p.ticketId, p.token] + Split(p.gate));
  }

  lemma {:induction false} TrimIsTight(s: string)
    ensures var t := Trim(s); t != "" ==> !IsSpace(t[0]) && !IsSpace(t[|t| - 1])
    ensures Trim(Trim(s)) == Trim(s)
  {
    if s != "" && IsSpace(s[0]) {
      TrimIsTight(s[1..]);
    } else if s != "" && IsSpace(s[|s| - 1]) {
      TrimIsTight(s[..|s| - 1]);
    }
  }

  // ------------------------------------------------------------------ what trimming takes away

  predicate AllSpace(s: string) {
    forall c :: c in s ==> IsSpace(c)
  }

  /** Trimming takes white space from the ends and nothing else. */
  lemma {:induction false} TrimCutsSpace(s: string) returns (a: string, b: string)
    ensures AllSpace(a) && AllSpace(b) && s == a + Trim(s) + b
  {
    if s != "" && IsSpace(s[0]) {
      a, b := TrimCutsSpace(s[1..]);
      a := [s[0]] + a;
    } else if s != "" && IsSpace(s[|s| - 1]) {
      a, b := TrimCutsSpace(s[..|s| - 1]);
      b := b + [s[|s| - 1]];
    } else {
      a, b := "", "";
    }
  }

  /** And it takes all of it: what stood between the white space is what remains. */
  lemma {:induction false} TrimOfPadded(a: string, x: string, b: string)
    requires AllSpace(a) && AllSpace(b) && (x != "" ==> !IsSpace(x[0]) && !IsSpace(x[|x| - 1]))
    ensures Trim(a + x + b) == x
    decreases |a| + |b|
  {
    var s := a + x + b;
    if a != "" {
      assert s[1..] == a[1..] + x + b;
      TrimOfPadded(a[1..], x, b);
    } else if b != "" && x == "" {
      assert s == b && s[1..] == a + x + b[1..];
      TrimOfPadded(a, x, b[1..]);
    } else if b != "" {
      assert s[..|s| - 1] == a + x + b[..|b| - 1];
      TrimOfPadded(a, x, b[..|b| - 1]);
    } else {
      assert s == x;
    }
  }

  /** White space around a scanned text makes no difference. */
  lemma SpaceAroundIsIgnored(a: string, s: string, b: string)
    requires AllSpace(a) && AllSpace(b)
    ensures ParseScanned(a + s + b) == ParseScanned(s)
  {
    var a1, b1 := TrimCutsSpace(s);
    TrimIsTight(s);
    assert a + s + b == (a + a1) + Trim(s) + (b1 + b);
    TrimOfPadded(a + a1, Trim(s), b1 + b);
  }

  // ------------------------------------------------------------------ main results

  predicate Plain(s: string) {
    s != "" && NoColon(s)
  }

  /** The strict parser recovers a payload exactly when its fields are non-empty and without colons. */
  lemma StrictRoundTrip(p: Payload)
    ensures ParseStrict(Build(p)) == Some(p) <==> Plain(p.ticketId) && Plain(p.token) && Plain(p.gate)
  {
    JoinOfSplit(Build(p));
    var parts := Split(Build(p));
    if ParseStrict(Build(p)) == Some(p) {
      assert parts[0] in parts && parts[1] in parts && parts[2] in parts;
    }
    if Plain(p.ticketId) && Plain(p.token) && Plain(p.gate) {
      SplitOfBuild(p);
      SplitOfJoin([p.gate]);
    }
  }

  lemma StrictParseBuildsBack(s: string)
    requires ParseStrict(s).Some?
    ensures Build(ParseStrict(s).value) == s
  {
    JoinOfSplit(s);
    var parts := Split(s);
    assert parts == [parts[0], parts[1]] + parts[2..];
    JoinOfThree(parts[0], parts[1], parts[2..]);
  }

  lemma ScannedParseBuildsBack(raw: string)
    requires ParseScanned(raw).Some?
    ensures Build(ParseScanned(raw).value) == Trim(raw)
  {
    JoinOfSplit(Trim(raw));
    var parts := Split(Trim(raw));
    assert parts == [parts[0], parts[1]] + parts[2..];
    JoinOfThree(parts[0], parts[1], parts[2..]);
  }

  /** The scanner recovers gate names with colons too; only white space at either end gets lost. */
  lemma ScannedRoundTrip(p: Payload)
    ensures ParseScanned(Build(p)) == Some(p) <==>
            Plain(p.ticketId) && Plain(p.token) && p.gate != "" && !IsSpace(p.ticketId[0]) &&
              !IsSpace(p.gate[|p.gate| - 1])
  {
    var s := Build(p);
    if ParseScanned(s) == Some(p) {
      ScannedParseBuildsBack(s);
      TrimIsTight(s);
      JoinOfSplit(s);
      var parts := Split(s);
      assert parts[0] in parts && parts[1] in parts;
      assert s[0] == p.ticketId[0] && s[|s| - 1] == p.gate[|p.gate| - 1];
    }
    if Plain(p.ticketId) && Plain(p.token) && p.gate != "" && !IsSpace(p.ticketId[0]) &&
         !IsSpace(p.gate[|p.gate| - 1]) {
      assert s[0] == p.ticketId[0] && s[|s| - 1] == p.gate[|p.gate| - 1];
      SplitOfBuild(p);
      JoinOfSplit(p.gate);
      assert Split(s)[2..] == Split(p.gate);
    }
  }

  /** So the scanner recovers exactly these payloads from their code with any white space around it. */
  lemma PaddedRoundTrip(a: string, p: Payload, b: string)
    requires AllSpace(a) && AllSpace(b)
    ensures ParseScanned(a + Build(p) + b) == Some(p) <==>
            Plain(p.ticketId) && Plain(p.token) && p.gate != "" && !IsSpace(p.ticketId[0]) &&
              !IsSpace(p.gate[|p.gate| - 1])
  {
    SpaceAroundIsIgnored(a, Build(p), b);
    ScannedRoundTrip(p);
  }

  lemma BuildSplits(a: string, p: Payload, gate: string, rest: string, b: string)
    requires p.gate == gate + rest
    ensures a + Build(p) + b == a + Build(p.(gate := gate)) + (rest + b)
  {
    var front := p.ticketId + ":" + p.token + ":";
    assert front + (gate + rest) == (front + gate) + rest;
    assert a + ((front + gate) + rest) + b == a + (front + gate) + (rest + b);
  }

  /** A code is read exactly when its gate is more than white space; id and token then come through. */
  lemma CodeIsReadIff(a: string, p: Payload, b: string)
    requires AllSpace(a) && AllSpace(b) && Plain(p.ticketId) && Plain(p.token) && !IsSpace(p.ticketId[0])
    ensures var read := ParseScanned(a + Build(p) + b);
            && (read.Some? <==> !AllSpace(p.gate))
            && (read.Some? ==> read.value.ticketId == p.ticketId && read.value.token == p.token)
  {
    var x, y := TrimCutsSpace(p.gate);
    TrimIsTight(p.gate);
    if AllSpace(p.gate) {
      BuildSplits(a, p, "", p.gate, b);
      SpaceAroundIsIgnored(a, Build(p.(gate := "")), p.gate + b);
      GatelessIsUnread(p.(gate := ""));
    } else {
      var gate := x + Trim(p.gate);
      BuildSplits(a, p, gate, y, b);
      SpaceAroundIsIgnored(a, Build(p.(gate := gate)), y + b);
      assert Trim(p.gate) != "";
      ScannedRoundTrip(p.(gate := gate));
    }
  }

  lemma GatelessIsUnread(p: Payload)
    requires Plain(p.ticketId) && Plain(p.token) && !IsSpace(p.ticketId[0]) && p.gate == ""
    ensures ParseScanned(Build(p)).None?
  {
    var s := Build(p);
    assert s[0] == p.ticketId[0] && s[|s| - 1] == ':';
    SplitOfBuild(p);
    assert Split(s)[2..] == [""];
  }

  /** Wherever the strict parser accepts a trimmed text, the scanner reads the same. */
  lemma ParsersAgree(raw: string)
    requires ParseStrict(Trim(raw)).Some?
    ensures ParseScanned(raw) == ParseStrict(Trim(raw))
  {
    var parts := Split(Trim(raw));
    assert parts[2..] == [parts[2]];
  }

  /** And the scanner accepts more exactly where the gate has a colon. */
  lemma ScannerAcceptsMore(raw: string)
    requires ParseScanned(raw).Some?
    ensures ParseStrict(Trim(raw)).None? <==> !NoColon(ParseScanned(raw).value.gate)
  {
    var parts := Split(Trim(raw));
    JoinOfSplit(Trim(raw));
    if |parts| == 3 {
      assert parts[2..] == [parts[2]];
      assert parts[2] in parts;
    } else {
      assert Join(parts[2..]) == parts[2] + ":" + Join(parts[2..][1..]);
      assert ':' in ":" && Join(parts[2..])[|parts[2]|] == ':';
    }
  }
}
