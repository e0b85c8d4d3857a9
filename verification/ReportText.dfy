// Report files as text (crates/control/src/compliance.rs): lines, a digest on the last one, and the
// check of it. Digests and number formats are parameters.
module ReportText {
  import opened Basics

  // The functions of the standard library and of sha2 that the report uses.
  datatype Formats = Formats(
    sha256: string -> string,   // of the UTF-8 octets, in hexadecimal
    fixed0: real -> string,     // {:.0}
    fixed2: real -> string,     // {:.2}
    decimal: nat -> string,
    time: int -> string)        // ISO 8601 of Unix milliseconds

  // The characters with the Unicode property White_Space.
  predicate Space(c: char) {
    || '\t' <= c <= '\r' || c == ' ' || c == '\U{0085}' || c == '\U{00A0}' || c == '\U{1680}'
    || '\U{2000}' <= c <= '\U{200A}' || c == '\U{2028}' || c == '\U{2029}' || c == '\U{202F}' || c == '\U{205F}'
    || c == '\U{3000}'
  }

  ghost predicate OneWord(s: string) {
    s != [] && forall c :: c in s ==> !Space(c)
  }

  ghost predicate OneLine(s: string) {
    '\n' !in s
  }

  // Digests are words, and different texts have different ones; formatted numbers stay on their line.
  ghost predicate Sound(f: Formats) {
    && (forall s: string :: OneWord(f.sha256(s)))
    && (forall s: string, t: string :: f.sha256(s) == f.sha256(t) ==> s == t)
    && (forall x: real :: OneLine(f.fixed0(x)))
    && (forall x: real :: OneLine(f.fixed2(x)))
    && (forall n: nat :: OneLine(f.decimal(n)))
    && (forall ms: int :: OneLine(f.time(ms)))
  }

  function Text(lines: seq<string>): string {
    if lines == [] then [] else lines[0] + "\n" + Text(lines[1..])
  }

  const DIGEST := "# sha256: "

  function Signed(f: Formats, body: string): string {
    body + DIGEST + f.sha256(body) + "\n"
  }

  // ---------------------------------------------------------------- verify_csv

  function TrimEndNewlines(s: string): string {
    if s != [] && s[|s| - 1] == '\n' then TrimEndNewlines(s[..|s| - 1]) else s
  }

  function RFindNewline(s: string): Option<nat> {
    if s == [] then None
    else if s[|s| - 1] == '\n' then Some(|s| - 1)
    else RFindNewline(s[..|s| - 1])
  }

  function TrimStart(s: string): string {
    if s != [] && Space(s[0]) then TrimStart(s[1..]) else s
  }

  function TrimEnd(s: string): string {
    if s != [] && Space(s[|s| - 1]) then TrimEnd(s[..|s| - 1]) else s
  }

  function StripPrefix(s: string, prefix: string): Option<string> {
    if prefix <= s then Some(s[|prefix|..]) else None
  }

  // Where the last line starts.
  function LastLineAt(csv: string): Option<nat> {
    match RFindNewline(TrimEndNewlines(csv))
    case None => None
    case Some(pos) => Some(pos + 1)
  }

  // The digest claimed on the last line.
  function Claimed(csv: string): Option<string> {
    match LastLineAt(csv)
    case None => None
    case Some(n) =>
      LastLineInside(csv);
      StripPrefix(TrimEnd(TrimStart(csv[n..])), DIGEST)
  }

  // Everything above the last line.
  function Body(csv: string): string {
    match LastLineAt(csv)
    case None => []
    case Some(n) => LastLineInside(csv); csv[..n]
  }

  predicate VerifyCsv(f: Formats, csv: string) {
    Claimed(csv) == Some(f.sha256(Body(csv)))
  }

  lemma {:induction false} TrimmedIsPrefix(s: string)
    ensures TrimEndNewlines(s) <= s
    decreases |s|
  {
    if s != [] && s[|s| - 1] == '\n' {
      TrimmedIsPrefix(s[..|s| - 1]);
    }
  }

  lemma {:induction false} FoundInside(s: string)
    ensures RFindNewline(s).Some? ==> RFindNewline(s).value < |s|
    decreases |s|
  {
    if s != [] {
      FoundInside(s[..|s| - 1]);
    }
  }

  lemma LastLineInside(csv: string)
    ensures LastLineAt(csv).Some? ==> LastLineAt(csv).value <= |csv|
  {
    TrimmedIsPrefix(csv);
    FoundInside(TrimEndNewlines(csv));
  }

  // ---------------------------------------------------------------- what is written verifies

  lemma {:induction false} LastNewline(a: string, line: string)
    requires a != [] && a[|a| - 1] == '\n' && OneLine(line)
    ensures RFindNewline(a + line) == Some(|a| - 1)
    decreases |line|
  {
    var s := a + line;
    if line == [] {
      assert s == a;
    } else {
      assert line[|line| - 1] in line;
      assert s[..|s| - 1] == a + line[..|line| - 1];
      LastNewline(a, line[..|line| - 1]);
    }
  }

  // Where a text with a digest line is cut.
  lemma DigestLineParts(body: string, digest: string)
    requires EndsInNewline(body) && OneWord(digest)
    ensures Body(body + DIGEST + digest + "\n") == body
    ensures Claimed(body + DIGEST + digest + "\n") == Some(digest)
  {
    assert body + DIGEST + digest + "\n" == body + ("" + (DIGEST + digest) + "") + "\n";
    LaidParts(body + DIGEST + digest + "\n", body, "", digest, "", "\n");
  }

  // What is written verifies, and its digest is the one on its last line.
  lemma SignedVerifies(f: Formats, body: string)
    requires Sound(f) && EndsInNewline(body)
    ensures VerifyCsv(f, Signed(f, body))
    ensures Body(Signed(f, body)) == body && Claimed(Signed(f, body)) == Some(f.sha256(body))
  {
    assert OneWord(f.sha256(body));
    DigestLineParts(body, f.sha256(body));
  }

  // A changed body over the old digest line never verifies.
  lemma ForgedBodyFails(f: Formats, body: string, forged: string)
    requires Sound(f) && forged != body && EndsInNewline(forged)
    ensures !VerifyCsv(f, forged + DIGEST + f.sha256(body) + "\n")
  {
    assert OneWord(f.sha256(body));
    DigestLineParts(forged, f.sha256(body));
  }

  // A blank line at the end goes unnoticed: the signature covers the lines above the digest only.
  lemma TrailingNewlineVerifiesToo(f: Formats, csv: string)
    requires VerifyCsv(f, csv)
    ensures VerifyCsv(f, csv + "\n") && Body(csv + "\n") == Body(csv)
  {
    var longer := csv + "\n";
    assert longer[..|csv|] == csv;
    assert TrimEndNewlines(longer) == TrimEndNewlines(csv);
    LastLineInside(csv);
    var n := LastLineAt(csv).value;
    assert longer[..n] == csv[..n] && longer[n..] == csv[n..] + "\n";
    TrimmedAlike(csv[n..]);
  }

  lemma {:induction false} TrimStartAlike(s: string)
    ensures TrimStart(s + "\n") == if TrimStart(s) == [] then [] else TrimStart(s) + "\n"
    decreases |s|
  {
    if s == [] {
      assert TrimStart("\n") == TrimStart("\n"[1..]);
    } else {
      assert (s + "\n")[1..] == s[1..] + "\n";
      if Space(s[0]) {
        TrimStartAlike(s[1..]);
      }
    }
  }

  lemma TrimmedAlike(s: string)
    ensures TrimEnd(TrimStart(s + "\n")) == TrimEnd(TrimStart(s))
  {
    TrimStartAlike(s);
    var t := TrimStart(s);
    assert (t + "\n")[..|t|] == t;
  }

  // ---------------------------------------------------------------- exactly what verifies

  ghost predicate Blank(s: string) {
    forall c :: c in s ==> Space(c)
  }

  ghost predicate Newlines(s: string) {
    forall i :: 0 <= i < |s| ==> s[i] == '\n'
  }

  ghost predicate EndsInNewline(s: string) {
    s != [] && s[|s| - 1] == '\n'
  }

  // The body, and below it its digest on one line, with white space around it and blank lines after it.
  ghost predicate Laid(f: Formats, csv: string, body: string, before: string, after: string, newlines: string) {
    && EndsInNewline(body) && Blank(before) && OneLine(before) && Blank(after) && OneLine(after) && Newlines(newlines)
    && csv == body + (before + (DIGEST + f.sha256(body)) + after) + newlines
  }

  lemma {:induction false} TrimsNewlines(s: string, newlines: string)
    requires Newlines(newlines) && (s != [] ==> s[|s| - 1] != '\n')
    ensures TrimEndNewlines(s + newlines) == s
    decreases |newlines|
  {
    var all := s + newlines;
    if newlines == [] {
      assert all == s;
    } else {
      assert all[..|all| - 1] == s + newlines[..|newlines| - 1];
      TrimsNewlines(s, newlines[..|newlines| - 1]);
    }
  }

  lemma {:induction false} TrimsBefore(before: string, s: string)
    requires Blank(before) && s != [] && !Space(s[0])
    ensures TrimStart(before + s) == s
    decreases |before|
  {
    if before == [] {
      assert before + s == s;
    } else {
      assert before[0] in before;
      assert (before + s)[1..] == before[1..] + s;
      TrimsBefore(before[1..], s);
    }
  }

  lemma {:induction false} TrimsAfter(s: string, after: string)
    requires Blank(after) && s != [] && !Space(s[|s| - 1])
    ensures TrimEnd(s + after) == s
    decreases |after|
  {
    var all := s + after;
    if after == [] {
      assert all == s;
    } else {
      assert after[|after| - 1] in after;
      assert all[..|all| - 1] == s + after[..|after| - 1];
      TrimsAfter(s, after[..|after| - 1]);
    }
  }

  lemma DigestLineIsLine(digest: string)
    requires OneWord(digest)
    ensures var line := DIGEST + digest;
      OneLine(line) && !Space(line[0]) && !Space(line[|line| - 1]) && line[|DIGEST|..] == digest
  {
    var line := DIGEST + digest;
    assert line[|line| - 1] == digest[|digest| - 1] && digest[|digest| - 1] in digest;
    assert forall c :: c in line ==> c in DIGEST || c in digest;
  }

  // White space around the digest, and blank lines after it, change nothing.
  lemma LaidParts(csv: string, body: string, before: string, digest: string, after: string, newlines: string)
    requires OneWord(digest) && EndsInNewline(body)
    requires Blank(before) && OneLine(before) && Blank(after) && OneLine(after) && Newlines(newlines)
    requires csv == body + (before + (DIGEST + digest) + after) + newlines
    ensures LastLineAt(csv) == Some(|body|) && Body(csv) == body && Claimed(csv) == Some(digest)
  {
    var word := DIGEST + digest;
    var line := before + word + after;
    DigestLineIsLine(digest);
    assert OneLine(line);
    assert line[|line| - 1] != '\n' by {
      assert line[|line| - 1] in line;
    }
    TrimsNewlines(body + line, newlines);
    LastNewline(body, line);
    assert csv[..|body|] == body && csv[|body|..] == line + newlines;
    assert line + newlines == before + (word + (after + newlines));
    assert Blank(after + newlines);
    TrimsBefore(before, word + (after + newlines));
    TrimsAfter(word, after + newlines);
  }

  lemma {:induction false} LastNewlineFound(s: string)
    requires RFindNewline(s).Some?
    ensures var p := RFindNewline(s).value; p < |s| && s[p] == '\n' && OneLine(s[p + 1..])
    decreases |s|
  {
    if s[|s| - 1] != '\n' {
      var init := s[..|s| - 1];
      LastNewlineFound(init);
      var p := RFindNewline(s).value;
      assert s[p + 1..] == init[p + 1..] + [s[|s| - 1]];
    }
  }

  lemma {:induction false} NewlinesTrimmed(s: string)
    ensures var t := TrimEndNewlines(s); t <= s && Newlines(s[|t|..])
    decreases |s|
  {
    if s != [] && s[|s| - 1] == '\n' {
      var init := s[..|s| - 1];
      NewlinesTrimmed(init);
      var t := TrimEndNewlines(s);
      assert s[|t|..] == init[|t|..] + ['\n'];
    }
  }

  lemma {:induction false} StartTrimmed(s: string) returns (before: string)
    ensures s == before + TrimStart(s) && Blank(before)
    decreases |s|
  {
    if s != [] && Space(s[0]) {
      var rest := StartTrimmed(s[1..]);
      before := [s[0]] + rest;
    } else {
      before := [];
    }
  }

  lemma {:induction false} EndTrimmed(s: string) returns (after: string)
    ensures s == TrimEnd(s) + after && Blank(after)
    decreases |s|
  {
    if s != [] && Space(s[|s| - 1]) {
      var rest := EndTrimmed(s[..|s| - 1]);
      after := rest + [s[|s| - 1]];
    } else {
      after := [];
    }
  }

  // A word between white space, at the end of a line with blank lines after it.
  lemma SplitAtWord(line: string, newlines: string, before: string, word: string, trail: string) returns (after: string)
    requires OneLine(line) && Newlines(newlines) && Blank(trail)
    requires word != [] && word[|word| - 1] != '\n' && line + newlines == before + word + trail
    ensures line == before + word + after && OneLine(before) && Blank(after) && OneLine(after)
  {
    var all, n := line + newlines, |before| + |word|;
    assert all[n - 1] == word[|word| - 1];
    forall k | |line| <= k < |all|
      ensures all[k] == '\n'
    {
      assert all[k] == newlines[k - |line|];
    }
    after := line[n..];
    assert line[..n] == all[..n] == before + word;
    assert before == line[..|before|];
    assert forall k :: 0 <= k < |after| ==> after[k] == trail[k];
  }

  // Where a file with a last line is cut.
  lemma LastLineIs(csv: string) returns (line: string, newlines: string)
    requires LastLineAt(csv).Some?
    ensures OneLine(line) && Newlines(newlines) && EndsInNewline(Body(csv)) && csv == Body(csv) + line + newlines
    ensures LastLineAt(csv).value == |Body(csv)|
  {
    LastLineInside(csv);
    var n, t := LastLineAt(csv).value, TrimEndNewlines(csv);
    NewlinesTrimmed(csv);
    LastNewlineFound(t);
    line, newlines := t[n..], csv[|t|..];
    assert csv[..n] == t[..n];
  }

  lemma TrimmedIs(s: string, word: string) returns (before: string, trail: string)
    requires TrimEnd(TrimStart(s)) == word
    ensures s == before + word + trail && Blank(before) && Blank(trail)
  {
    before := StartTrimmed(s);
    trail := EndTrimmed(TrimStart(s));
    assert s == before + (word + trail);
  }

  lemma VerifiedIsLaid(f: Formats, csv: string) returns (before: string, after: string, newlines: string)
    requires Sound(f) && VerifyCsv(f, csv)
    ensures Laid(f, csv, Body(csv), before, after, newlines)
  {
    var line: string;
    line, newlines := LastLineIs(csv);
    var body, digest := Body(csv), f.sha256(Body(csv));
    assert OneWord(digest);
    DigestLineIsLine(digest);
    assert csv[|body|..] == line + newlines;
    ClaimedIs(csv, digest);
    var trail: string;
    before, trail := TrimmedIs(line + newlines, DIGEST + digest);
    after := SplitAtWord(line, newlines, before, DIGEST + digest, trail);
  }

  lemma ClaimedIs(csv: string, digest: string)
    requires LastLineAt(csv).Some? && Claimed(csv) == Some(digest)
    ensures |Body(csv)| == LastLineAt(csv).value <= |csv|
    ensures TrimEnd(TrimStart(csv[|Body(csv)|..])) == DIGEST + digest
  {
    LastLineInside(csv);
  }

  // A file verifies exactly when it is a body of lines, and below it the digest of that body on one line of its own, with
  // nothing around it but white space and blank lines after it.
  lemma VerifiesExactly(f: Formats, csv: string)
    requires Sound(f)
    ensures VerifyCsv(f, csv)
            <==> exists body, before, after, newlines :: Laid(f, csv, body, before, after, newlines)
    ensures forall body, before, after, newlines :: Laid(f, csv, body, before, after, newlines) ==> Body(csv) == body
  {
    forall body, before, after, newlines | Laid(f, csv, body, before, after, newlines)
      ensures VerifyCsv(f, csv) && Body(csv) == body
    {
      assert OneWord(f.sha256(body));
      LaidParts(csv, body, before, f.sha256(body), after, newlines);
    }
    if VerifyCsv(f, csv) {
      var before, after, newlines := VerifiedIsLaid(f, csv);
    }
  }

  // For example with blanks before the digest.
  lemma IndentedDigestVerifiesToo(f: Formats, body: string)
    requires Sound(f) && EndsInNewline(body)
    ensures VerifyCsv(f, body + ("  " + (DIGEST + f.sha256(body)) + "\t") + "\n\n")
  {
    assert Laid(f, body + ("  " + (DIGEST + f.sha256(body)) + "\t") + "\n\n", body, "  ", "\t", "\n\n");
    VerifiesExactly(f, body + ("  " + (DIGEST + f.sha256(body)) + "\t") + "\n\n");
  }

  // ---------------------------------------------------------------- lines come apart again

  function UpToNewline(s: string): string {
    if s == [] || s[0] == '\n' then [] else [s[0]] + UpToNewline(s[1..])
  }

  function Line(s: string, n: nat): string
    decreases n
  {
    var first := UpToNewline(s);
    UpToNewlineIsPrefix(s);
    if n == 0 then first
    else if |first| == |s| then []
    else Line(s[|first| + 1..], n - 1)
  }

  lemma {:induction false} UpToNewlineIsPrefix(s: string)
    ensures |UpToNewline(s)| <= |s|
    decreases |s|
  {
    if s != [] && s[0] != '\n' {
      UpToNewlineIsPrefix(s[1..]);
    }
  }

  lemma {:induction false} FirstLine(line: string, rest: string)
    requires OneLine(line)
    ensures UpToNewline(line + "\n" + rest) == line
    decreases |line|
  {
    if line != [] {
      assert line[0] in line;
      assert (line + "\n" + rest)[1..] == line[1..] + "\n" + rest;
      FirstLine(line[1..], rest);
    }
  }

  lemma {:induction false} LineOfText(lines: seq<string>, n: nat)
    requires n < |lines| && forall i :: 0 <= i <= n ==> OneLine(lines[i])
    ensures Line(Text(lines), n) == lines[n]
    decreases n
  {
    var rest := Text(lines[1..]);
    FirstLine(lines[0], rest);
    if n > 0 {
      assert Text(lines)[|lines[0]| + 1..] == rest;
      LineOfText(lines[1..], n - 1);
    }
  }

  lemma {:induction false} TextEndsInNewline(lines: seq<string>)
    requires lines != []
    ensures Text(lines) != [] && Text(lines)[|Text(lines)| - 1] == '\n'
    decreases |lines|
  {
    if |lines| == 1 {
      assert Text(lines[1..]) == [];
      assert Text(lines) == lines[0] + "\n";
    } else {
      TextEndsInNewline(lines[1..]);
    }
  }
}
