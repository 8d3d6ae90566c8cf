/**
 * The strict cleaner applied to every generated reply
 * (docker/bitnet-ai/app.py, `_clean_response_strict`): a line filter that
 * drops role-prefixed lines and stops at a leaked role, a character scan that
 * keeps at most two sentences, and a final length cut.
 */
module ReplyCleaner {
  import opened Wrappers
  import opened Text
  import opened Py

  /** A line that opens with one of the role markers the cleaner drops. */
  predicate StartsWithRole(line: string) {
    StartsWith(line, "Customer:") || StartsWith(line, "User:") || StartsWith(line, "Human:")
  }

  /** A line whose first character is none of 'C', 'U' and 'H' opens with no role marker. */
  lemma NoRolePrefix(line: string)
    requires |line| > 0 && line[0] != 'C' && line[0] != 'U' && line[0] != 'H'
    ensures !StartsWithRole(line)
  {
    if |line| >= 5 {
      assert line[..5][0] == line[0];
    }
    if |line| >= 6 {
      assert line[..6][0] == line[0];
    }
    if |line| >= 9 {
      assert line[..9][0] == line[0];
    }
  }

  /** A line that holds a colon and, in any case, one of the role words. */
  predicate LeaksRole(line: string) {
    ':' in line && MentionsRole(Lower(line))
  }

  /** Whether lower-cased text holds one of the role words. */
  predicate MentionsRole(l: string) {
    Contains(l, "customer") || Contains(l, "user") || Contains(l, "human") || Contains(l, "assistant")
  }

  /** A raw line that, once stripped, is kept. */
  predicate Kept(line: string) {
    var l := Strip(line);
    l != "" && !StartsWithRole(l) && !LeaksRole(l)
  }

  /** A raw line at which the filter stops: it would be kept but for its leaked role. */
  predicate Stopper(line: string) {
    var l := Strip(line);
    l != "" && !StartsWithRole(l) && LeaksRole(l)
  }

  /** The line filter: stripped lines, without empty or role-prefixed ones, up to the first stopper. */
  function KeepLines(lines: seq<string>): (r: seq<string>)
    ensures |r| <= |lines|
    ensures forall k :: 0 <= k < |r| ==> r[k] != "" && !StartsWithRole(r[k]) && !LeaksRole(r[k])
    decreases |lines|
  {
    if |lines| == 0 then []
    else
      var l := Strip(lines[0]);
      if l == "" || StartsWithRole(l) then KeepLines(lines[1..])
      else if LeaksRole(l) then []
      else [l] + KeepLines(lines[1..])
  }

  /** Whether some line of `lines` is a stopper. */
  predicate StopsIn(lines: seq<string>) {
    exists k :: 0 <= k < |lines| && Stopper(lines[k])
  }

  /** Lines before any stopper are filtered independently of what follows them. */
  lemma {:induction false} KeepLinesAppend(a: seq<string>, b: seq<string>)
    requires !StopsIn(a)
    ensures KeepLines(a + b) == KeepLines(a) + KeepLines(b)
    decreases |a|
  {
    if |a| == 0 {
      assert a + b == b;
    } else {
      assert !Stopper(a[0]);
      assert (a + b)[0] == a[0];
      assert (a + b)[1..] == a[1..] + b;
      assert !StopsIn(a[1..]) by {
        forall k | 0 <= k < |a[1..]| ensures !Stopper(a[1..][k]) {
          assert a[1..][k] == a[k + 1];
        }
      }
      KeepLinesAppend(a[1..], b);
    }
  }

  /** The filter drops the first stopper and everything after it. */
  lemma KeepLinesStopsAt(a: seq<string>, stop: string, b: seq<string>)
    requires !StopsIn(a) && Stopper(stop)
    ensures KeepLines(a + [stop] + b) == KeepLines(a)
  {
    assert a + [stop] + b == a + ([stop] + b);
    KeepLinesAppend(a, [stop] + b);
    assert ([stop] + b)[1..] == b;
  }

  /** Without a stopper, the filter keeps exactly the kept lines, stripped, in order. */
  lemma {:induction false} KeepLinesFilters(lines: seq<string>)
    requires !StopsIn(lines)
    ensures forall k :: 0 <= k < |lines| && Kept(lines[k]) ==> Strip(lines[k]) in KeepLines(lines)
    decreases |lines|
  {
    if |lines| > 0 {
      assert !StopsIn(lines[1..]) by {
        forall k | 0 <= k < |lines[1..]| ensures !Stopper(lines[1..][k]) {
          assert lines[1..][k] == lines[k + 1];
        }
      }
      KeepLinesFilters(lines[1..]);
      forall k | 0 <= k < |lines| && Kept(lines[k]) ensures Strip(lines[k]) in KeepLines(lines) {
        if k > 0 {
          assert lines[k] == lines[1..][k - 1];
        }
      }
    }
  }

  /** Lines that are all already stripped, non-empty and free of roles pass the filter unchanged. */
  lemma {:induction false} KeepLinesAllKept(lines: seq<string>)
    requires forall k :: 0 <= k < |lines| ==> Strip(lines[k]) == lines[k] && Kept(lines[k])
    ensures KeepLines(lines) == lines
    decreases |lines|
  {
    if |lines| > 0 {
      assert Kept(lines[0]);
      KeepLinesAllKept(lines[1..]);
      assert lines == [lines[0]] + lines[1..];
    }
  }

  /** The characters that end a sentence. */
  predicate IsTerminator(c: char) {
    c == '.' || c == '!' || c == '?'
  }

  /** A non-empty piece of text that ends a sentence. */
  predicate Terminated(x: string) {
    |x| > 0 && IsTerminator(x[|x| - 1])
  }

  /** A trailing unterminated fragment, kept with a '.' only when its stripped length exceeds 10. */
  function Fragment(cur: string): (r: seq<string>)
    ensures |r| <= 1
    ensures forall k :: 0 <= k < |r| ==> Terminated(r[k])
  {
    var t := Strip(cur);
    if |t| > 10 then [t + "."] else []
  }

  /**
   * The character scan: `cur` is the sentence being read, `acc` the sentences
   * finished so far; the scan stops once two are finished.
   */
  function Scan(s: string, cur: string, acc: seq<string>): seq<string>
    requires |acc| < 2
    decreases |s|
  {
    if s == [] then acc + Fragment(cur)
    else
      var cur' := cur + [s[0]];
      if IsTerminator(s[0]) then
        var acc' := acc + [Strip(cur')];
        if |acc'| >= 2 then acc' else Scan(s[1..], "", acc')
      else Scan(s[1..], cur', acc)
  }

  /** The position of the first terminator of `s`, if any. */
  function FirstTerminator(s: string): (r: Option<nat>)
    ensures r.None? ==> forall j :: 0 <= j < |s| ==> !IsTerminator(s[j])
    ensures r.Some? ==> r.value < |s| && IsTerminator(s[r.value])
    ensures r.Some? ==> forall j :: 0 <= j < r.value ==> !IsTerminator(s[j])
    decreases |s|
  {
    if s == [] then None
    else if IsTerminator(s[0]) then Some(0)
    else match FirstTerminator(s[1..])
      case None => None
      case Some(i) => Some(i + 1)
  }

  /** Without a terminator left, the scan ends with the fragment of everything read. */
  lemma {:induction false} ScanToEnd(s: string, cur: string, acc: seq<string>)
    requires |acc| < 2
    requires FirstTerminator(s).None?
    ensures Scan(s, cur, acc) == acc + Fragment(cur + s)
    decreases |s|
  {
    if s == [] {
      assert cur + s == cur;
    } else {
      assert FirstTerminator(s[1..]).None?;
      ScanToEnd(s[1..], cur + [s[0]], acc);
      assert cur + [s[0]] + s[1..] == cur + s;
    }
  }

  /** One step of the scan over an ordinary character: it joins the current sentence. */
  lemma ScanOrdinary(s: string, cur: string, acc: seq<string>)
    requires |acc| < 2 && s != [] && !IsTerminator(s[0])
    ensures Scan(s, cur, acc) == Scan(s[1..], cur + [s[0]], acc)
  {
  }

  /** How the scan goes on once `sentence` is finished, with `rest` still to read. */
  function AfterSentence(rest: string, acc: seq<string>, sentence: string): seq<string>
    requires |acc| < 2
  {
    if |acc| + 1 >= 2 then acc + [sentence] else Scan(rest, "", acc + [sentence])
  }

  /** One step of the scan over a terminator: it finishes the current sentence. */
  lemma ScanTerminator(s: string, cur: string, acc: seq<string>)
    requires |acc| < 2 && s != [] && IsTerminator(s[0])
    ensures Scan(s, cur, acc) == AfterSentence(s[1..], acc, Strip(cur + s[..1]))
  {
    assert s[..1] == [s[0]];
  }

  /** Moving one character from the text to the current sentence. */
  lemma ShiftOne(s: string, cur: string, i: nat)
    requires 0 < i < |s|
    ensures (cur + [s[0]]) + s[1..][..i] == cur + s[..i + 1]
    ensures s[1..][i..] == s[i + 1..]
  {
  }

  /** The first terminator of the tail is one place earlier. */
  lemma FirstTerminatorTail(s: string, i: nat)
    requires FirstTerminator(s) == Some(i) && i > 0
    ensures FirstTerminator(s[1..]) == Some(i - 1)
  {
  }

  /** The scan reads up to the next terminator in one step. */
  lemma {:induction false} ScanToTerminator(s: string, cur: string, acc: seq<string>, i: nat)
    requires |acc| < 2
    requires FirstTerminator(s) == Some(i)
    ensures Scan(s, cur, acc) == AfterSentence(s[i + 1..], acc, Strip(cur + s[..i + 1]))
    decreases |s|
  {
    if i == 0 {
      ScanTerminator(s, cur, acc);
    } else {
      var cur' := cur + [s[0]];
      assert Scan(s, cur, acc) == Scan(s[1..], cur', acc) by {
        ScanOrdinary(s, cur, acc);
      }
      assert Scan(s[1..], cur', acc) == AfterSentence(s[1..][i..], acc, Strip(cur' + s[1..][..i])) by {
        FirstTerminatorTail(s, i);
        ScanToTerminator(s[1..], cur', acc, i - 1);
      }
      ShiftOne(s, cur, i);
    }
  }

  /** A stretch of text ending in a terminator, stripped: it keeps its terminator. */
  function Sentence(piece: string): (r: string)
    requires Terminated(piece)
    ensures Terminated(r)
  {
    TrimKeepsLast(piece, IsSpace);
    Strip(piece)
  }

  /**
   * The sentence stage as a reference definition: the first sentence up to the
   * first terminator, a second up to the next one, or instead of it a long
   * enough trailing fragment with '.' appended.
   */
  function Sentences(s: string): (r: seq<string>)
    ensures |r| <= 2
    ensures forall k :: 0 <= k < |r| ==> Terminated(r[k])
  {
    match FirstTerminator(s)
    case None => Fragment(s)
    case Some(i) =>
      var rest := s[i + 1..];
      match FirstTerminator(rest)
      case None => [Sentence(s[..i + 1])] + Fragment(rest)
      case Some(j) => [Sentence(s[..i + 1]), Sentence(rest[..j + 1])]
  }

  /** The rest of the scan once one sentence is finished. */
  lemma ScanAfterFirst(s: string, i: nat)
    requires FirstTerminator(s) == Some(i)
    ensures var rest := s[i + 1..]; var first := Sentence(s[..i + 1]);
      Scan(rest, "", [first]) ==
        match FirstTerminator(rest)
        case None => [first] + Fragment(rest)
        case Some(j) => [first, Sentence(rest[..j + 1])]
  {
    var rest := s[i + 1..];
    var first := Sentence(s[..i + 1]);
    match FirstTerminator(rest)
    case None =>
      ScanToEnd(rest, "", [first]);
      assert "" + rest == rest;
    case Some(j) =>
      ScanToTerminator(rest, "", [first], j);
      assert "" + rest[..j + 1] == rest[..j + 1];
  }

  /** The first step of the scan, up to the first terminator. */
  lemma ScanFirst(s: string, i: nat)
    requires FirstTerminator(s) == Some(i)
    ensures Scan(s, "", []) == Scan(s[i + 1..], "", [Sentence(s[..i + 1])])
  {
    ScanToTerminator(s, "", [], i);
    assert "" + s[..i + 1] == s[..i + 1];
    assert [] + [Sentence(s[..i + 1])] == [Sentence(s[..i + 1])];
  }

  /** The character scan computes the reference sentence split. */
  lemma ScanIsSentences(s: string)
    ensures Scan(s, "", []) == Sentences(s)
  {
    match FirstTerminator(s)
    case None =>
      ScanToEnd(s, "", []);
      assert "" + s == s;
      assert [] + Fragment(s) == Fragment(s);
    case Some(i) =>
      ScanFirst(s, i);
      ScanAfterFirst(s, i);
  }

  /** The longest reply that passes the length cut unchanged. */
  const MaxLength: nat := 200

  /** The final length cut: a reply over 200 characters is cut at the last space of its first 200, plus '.'. */
  function Truncate(r: string): (t: string)
    ensures |r| <= MaxLength ==> t == r
    ensures |r| > MaxLength ==> 0 < |t| <= MaxLength + 1 && t[|t| - 1] == '.'
    ensures |r| > MaxLength && ' ' in r[..MaxLength] ==> |t| <= MaxLength
    ensures |r| > MaxLength ==> StartsWith(r, t[..|t| - 1])
    ensures |r| > MaxLength && ' ' in r[..MaxLength] ==> r[|t| - 1] == ' ' && ' ' !in r[|t|..MaxLength]
    ensures |r| > MaxLength && ' ' !in r[..MaxLength] ==> t == r[..MaxLength] + "."
  {
    if |r| > MaxLength then
      var head := r[..MaxLength];
      var kept := BeforeLast(head, ' ');
      assert ' ' in head ==> head[|kept| + 1..] == r[|kept| + 1..MaxLength];
      kept + "."
    else r
  }

  /** The line stage: strip, split on newlines, filter, join with single spaces and strip again. */
  function CleanLines(response: string): string {
    Strip(Join(KeepLines(Split(Strip(response), '\n')), " "))
  }

  /** The whole cleaner. */
  function CleanStrict(response: string): (r: string)
    ensures response == "" ==> r == ""
    ensures |r| <= MaxLength + 1
  {
    if response == "" then ""
    else
      var joined := CleanLines(response);
      Truncate(if joined == "" then "" else Join(Scan(joined, "", []), " "))
  }

  /** Joining terminated sentences gives a terminated text. */
  lemma JoinTerminated(xs: seq<string>)
    requires |xs| > 0 && forall k :: 0 <= k < |xs| ==> Terminated(xs[k])
    ensures Terminated(Join(xs, " "))
  {
    JoinLast(xs, " ", IsTerminator);
  }

  /** The sentence stage yields either nothing or a terminated text. */
  lemma SentenceStageTerminated(joined: string)
    ensures var t := Join(Scan(joined, "", []), " "); t == "" || Terminated(t)
  {
    ScanIsSentences(joined);
    var xs := Sentences(joined);
    if |xs| > 0 {
      JoinTerminated(xs);
    }
  }

  /** The length cut keeps a text terminated: a cut text ends with the '.' it is given. */
  lemma TruncateTerminated(t: string)
    requires t == "" || Terminated(t)
    ensures Truncate(t) == "" || Terminated(Truncate(t))
  {
  }

  /** A non-empty cleaned reply always ends with '.', '!' or '?'. */
  lemma CleanEndsWithTerminator(response: string)
    ensures var r := CleanStrict(response); r == "" || IsTerminator(r[|r| - 1])
  {
    if response != "" {
      var joined := CleanLines(response);
      var t := if joined == "" then "" else Join(Scan(joined, "", []), " ");
      if joined != "" {
        SentenceStageTerminated(joined);
      }
      assert CleanStrict(response) == Truncate(t);
      TruncateTerminated(t);
    }
  }

  /** The cleaned reply is the length-cut join of at most two sentences of the filtered text. */
  lemma CleanIsSentences(response: string)
    requires CleanLines(response) != ""
    ensures var xs := Sentences(CleanLines(response));
      |xs| <= 2 && CleanStrict(response) == Truncate(Join(xs, " "))
  {
    ScanIsSentences(CleanLines(response));
  }

  /** A string whose only terminator is its last character. */
  lemma OnlyLastTerminator(s: string)
    requires |s| > 0 && IsTerminator(s[|s| - 1])
    requires forall j :: 0 <= j < |s| - 1 ==> !IsTerminator(s[j])
    ensures FirstTerminator(s) == Some(|s| - 1)
  {
  }

  /** Cleaning a single short sentence without role leakage returns it unchanged. */
  lemma CleanOneSentence(s: string)
    requires Terminated(s) && |s| <= MaxLength && '\n' !in s && !IsSpace(s[0])
    requires !StartsWithRole(s) && !LeaksRole(s)
    requires forall j :: 0 <= j < |s| - 1 ==> !IsTerminator(s[j])
    ensures CleanStrict(s) == s
  {
    TrimNoop(s, IsSpace);
    SplitJoin([s], '\n');
    assert Split(s, '\n') == [s];
    assert KeepLines([s]) == [s];
    assert CleanLines(s) == s;
    OnlyLastTerminator(s);
    ScanIsSentences(s);
    assert s[|s|..] == "";
    assert Sentences(s) == [Sentence(s)];
  }

  /** A single line that leaks a role cleans to the empty string. */
  lemma CleanLeakingLine(s: string)
    requires s != "" && '\n' !in s && !IsSpace(s[0]) && !IsSpace(s[|s| - 1])
    requires !StartsWithRole(s) && LeaksRole(s)
    ensures CleanStrict(s) == ""
  {
    TrimNoop(s, IsSpace);
    SplitJoin([s], '\n');
    assert Split(s, '\n') == [s];
    assert KeepLines([s]) == [];
  }

  const NoteLine: string := "Note: great value"
  const UserLine: string := "for any user."
  const NoteJoined: string := NoteLine + " " + UserLine

  /** Text without any of the letters c, s and h, in either case, mentions no role. */
  lemma NoRoleLetters(line: string)
    requires 'c' !in line && 'C' !in line && 's' !in line && 'S' !in line && 'h' !in line && 'H' !in line
    ensures !MentionsRole(Lower(line))
  {
    var l := Lower(line);
    AsciiLowerMissing(line, 'c', 'C');
    AsciiLowerMissing(line, 's', 'S');
    AsciiLowerMissing(line, 'h', 'H');
    NotContainsMissingChar(l, "customer", 'c');
    NotContainsMissingChar(l, "user", 's');
    NotContainsMissingChar(l, "human", 'h');
    NotContainsMissingChar(l, "assistant", 's');
  }

  /** The first line holds no c, in either case. */
  lemma NoteLineNoC(line: string)
    requires line == NoteLine
    ensures 'c' !in line && 'C' !in line
  {
  }

  /** The first line holds no s, in either case. */
  lemma NoteLineNoS(line: string)
    requires line == NoteLine
    ensures 's' !in line && 'S' !in line
  {
  }

  /** The first line holds no h, in either case. */
  lemma NoteLineNoH(line: string)
    requires line == NoteLine
    ensures 'h' !in line && 'H' !in line
  {
  }

  /** The first line passes the filter: it has a colon but no role word. */
  lemma NoteLineKept(line: string)
    requires line == NoteLine
    ensures Strip(line) == line && !StartsWithRole(line) && !LeaksRole(line)
  {
    assert line[0] == 'N';
    NoRolePrefix(line);
    TrimNoop(line, IsSpace);
    NoteLineNoC(line);
    NoteLineNoS(line);
    NoteLineNoH(line);
    NoRoleLetters(line);
  }

  /** The second line passes the filter: it has no colon. */
  lemma UserLineKept(line: string)
    requires line == UserLine
    ensures Strip(line) == line && !StartsWithRole(line) && !LeaksRole(line)
  {
    assert line[0] == 'f';
    NoRolePrefix(line);
    TrimNoop(line, IsSpace);
    assert ':' !in line;
  }

  /** The joined line holds both a colon and the role word "user". */
  lemma NoteJoinedLeaks(line: string)
    requires line == NoteJoined
    ensures !StartsWithRole(line) && LeaksRole(line)
  {
    assert line[0] == 'N';
    NoRolePrefix(line);
    assert line[4] == ':';
    assert line[26..30] == "user";
    assert AsciiLower("user") == "user";
    AsciiLowerOccurs(line, "user", 26);
    ContainsAt(Lower(line), "user", 26);
  }

  /** Two kept, already stripped lines are joined by the line stage with one space. */
  lemma TwoKeptLines(a: string, b: string)
    requires '\n' !in a && '\n' !in b
    requires Strip(a) == a && Kept(a) && Strip(b) == b && Kept(b)
    requires Strip(a + "\n" + b) == a + "\n" + b && Strip(a + " " + b) == a + " " + b
    ensures CleanLines(a + "\n" + b) == a + " " + b
  {
    var xs := [a, b];
    forall k | 0 <= k < |xs| ensures '\n' !in xs[k] && Strip(xs[k]) == xs[k] && Kept(xs[k]) {
      if k == 0 {
        assert xs[k] == a;
      } else {
        assert xs[k] == b;
      }
    }
    SplitJoin(xs, '\n');
    assert Join(xs, "\n") == a + "\n" + b;
    KeepLinesAllKept(xs);
    assert Join(xs, " ") == a + " " + b;
  }

  /** Neither example line holds a newline. */
  lemma NoteSingleLines()
    ensures '\n' !in NoteLine && '\n' !in UserLine
  {
  }

  /** The line stage joins the two lines of the example with a space. */
  lemma NoteLines(input: string)
    requires input == NoteLine + "\n" + UserLine
    ensures CleanLines(input) == NoteJoined
  {
    var a := NoteLine;
    var b := UserLine;
    NoteLineKept(a);
    UserLineKept(b);
    assert input[0] == 'N' && input[|input| - 1] == '.';
    TrimNoop(input, IsSpace);
    var j := a + " " + b;
    assert j[0] == 'N' && j[|j| - 1] == '.';
    TrimNoop(j, IsSpace);
    NoteSingleLines();
    TwoKeptLines(a, b);
  }

  /** The first example line holds no terminator. */
  lemma NoteLineUnterminated(line: string)
    requires line == NoteLine
    ensures forall k :: 0 <= k < |line| ==> !IsTerminator(line[k])
  {
  }

  /** The second example line holds a terminator only at its end. */
  lemma UserLineEndsOnce(line: string)
    requires line == UserLine
    ensures forall k :: 0 <= k < |line| - 1 ==> !IsTerminator(line[k])
    ensures line[|line| - 1] == '.'
  {
  }

  /** The joined example holds exactly one terminator, at its end. */
  lemma NoteJoinedTerminator(j: string)
    requires j == NoteJoined
    ensures FirstTerminator(j) == Some(|j| - 1)
  {
    var a := NoteLine;
    var b := UserLine;
    NoteLineUnterminated(a);
    UserLineEndsOnce(b);
    assert j == a + " " + b;
    forall k | 0 <= k < |j| - 1 ensures !IsTerminator(j[k]) {
      if k < |a| {
        assert j[k] == a[k];
      } else if k > |a| {
        assert j[k] == b[k - |a| - 1];
      }
    }
    assert j[|j| - 1] == b[|b| - 1];
    OnlyLastTerminator(j);
  }

  /** The sentence stage and the length cut leave the joined example unchanged. */
  lemma NoteSentence(j: string)
    requires j == NoteJoined
    ensures Truncate(Join(Scan(j, "", []), " ")) == j
  {
    NoteJoinedTerminator(j);
    ScanIsSentences(j);
    assert j[|j|..] == "";
    assert j[0] == 'N' && j[|j| - 1] == '.';
    TrimNoop(j, IsSpace);
    assert Sentences(j) == [j];
  }

  /** The two-line reply is joined into one sentence by the first pass. */
  lemma NoteFirstPass(input: string)
    requires input == NoteLine + "\n" + UserLine
    ensures CleanStrict(input) == NoteJoined
  {
    NoteLines(input);
    NoteSentence(CleanLines(input));
  }

  /** The joined example is one line with no surrounding whitespace. */
  lemma NoteJoinedShape(line: string)
    requires line == NoteJoined
    ensures line != "" && '\n' !in line && !IsSpace(line[0]) && !IsSpace(line[|line| - 1])
  {
    NoteSingleLines();
    assert line[0] == 'N' && line[|line| - 1] == '.';
  }

  /**
   * Cleaning is not idempotent: two lines that each pass the filter are
   * joined into one line that holds both a colon and a role word, and the
   * second pass drops it.
   */
  lemma CleanNotIdempotent(input: string)
    requires input == NoteLine + "\n" + UserLine
    ensures CleanStrict(input) == NoteJoined
    ensures CleanStrict(CleanStrict(input)) == ""
  {
    NoteFirstPass(input);
    var once := CleanStrict(input);
    NoteJoinedLeaks(once);
    NoteJoinedShape(once);
    CleanLeakingLine(once);
  }
}
