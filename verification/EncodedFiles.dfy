/** What the encoder script makes of a whole file: which lines it refuses, and what becomes of the others. */
module EncodedFiles {
  import opened Events
  import opened Text
  import opened Selections
  import opened Encoder

  // ---- the three parts ----

  lemma CutApart(s: string, i: nat)
    requires ColonAt(s, i)
    ensures s == s[..i] + ": " + s[i + 2..]
  {
  }

  lemma TailHasNoColon(s: string, i: nat)
    requires i <= |s| && forall k :: i <= k ==> !ColonAt(s, k)
    ensures NoColon(s[i..])
  {
    ColonInTail(s, s[i..], i);
    forall k ensures !ColonAt(s[i..], k) { assert k < 0 || !ColonAt(s, i + k); }
  }

  lemma PartsMake(s: string)
    requires ThreeParts(s).Some?
    ensures var (a, b, c) := ThreeParts(s).value; s == a + ": " + b + ": " + c && NoColon(b) && NoColon(c)
  {
    var j := LastColon(s).value;
    var front := s[..j];
    var i := LastColon(front).value;
    CutApart(s, j);
    CutApart(front, i);
    TailHasNoColon(s, j + 2);
    TailHasNoColon(front, i + 2);
    assert front[i + 2..] == s[i + 2..j] && front[..i] == s[..i];
  }

  /** A line falls into three parts exactly if it is made of three, the last two without a ": " in them. */
  lemma ThreePartsIff(s: string, a: string, b: string, c: string)
    ensures ThreeParts(s) == Some((a, b, c)) <==> s == a + ": " + b + ": " + c && NoColon(b) && NoColon(c)
  {
    if ThreeParts(s) == Some((a, b, c)) { PartsMake(s); }
    if s == a + ": " + b + ": " + c && NoColon(b) && NoColon(c) { ThreePartsOf(a, b, c); }
  }

  // ---- words ----

  /** Gaps and words in turn, a gap at either end. */
  ghost function Interleaved(gaps: seq<string>, ws: seq<string>): string
    requires |gaps| == |ws| + 1
  {
    if ws == [] then gaps[0] else gaps[0] + ws[0] + Interleaved(gaps[1..], ws[1..])
  }

  /** White space everywhere, and some of it between any two words. */
  ghost predicate Gaps(gaps: seq<string>) {
    && (forall i :: 0 <= i < |gaps| ==> Gap(gaps[i]))
    && (forall i :: 0 < i < |gaps| - 1 ==> gaps[i] != "")
  }

  ghost predicate AllWords(ws: seq<string>) { forall i :: 0 <= i < |ws| ==> Word(ws[i]) }

  /** The text is these words with white space around them. */
  ghost predicate Spaced(s: string, ws: seq<string>) {
    AllWords(ws) && exists gaps :: |gaps| == |ws| + 1 && Gaps(gaps) && s == Interleaved(gaps, ws)
  }

  lemma {:induction false} GapHasNoWords(s: string)
    ensures Gap(s) <==> Words(s) == []
  {
    if s != "" && IsSpace(s[0]) { GapHasNoWords(s[1..]); }
  }

  lemma GapMore(h: char, gap: string, w: string, rest: string, t: string)
    requires IsSpace(h) && Gap(gap) && t == gap + w + rest
    ensures Gap([h] + gap) && [h] + t == [h] + gap + w + rest
  {
  }

  lemma WordFirst(s: string)
    requires s != "" && !IsSpace(s[0])
    ensures var n := WordEnd(s); n > 0 && Words(s) == [s[..n]] + Words(s[n..]) && s == "" + s[..n] + s[n..] && Word(s[..n])
  {
  }

  /** The first word, with the gap in front of it. */
  lemma {:induction false} FirstWord(s: string) returns (gap: string, rest: string)
    requires Words(s) != []
    ensures Gap(gap) && Word(Words(s)[0]) && (rest == "" || IsSpace(rest[0]))
    ensures s == gap + Words(s)[0] + rest && Words(rest) == Words(s)[1..] && |rest| < |s|
    decreases |s|
  {
    if IsSpace(s[0]) {
      var g;
      g, rest := FirstWord(s[1..]);
      gap := [s[0]] + g;
      GapMore(s[0], g, Words(s)[0], rest, s[1..]);
      assert s == [s[0]] + s[1..];
    } else {
      gap, rest := "", s[WordEnd(s)..];
      WordFirst(s);
    }
  }

  lemma {:induction false} WordsAreSpaced(s: string) returns (gaps: seq<string>)
    ensures |gaps| == |Words(s)| + 1 && Gaps(gaps) && AllWords(Words(s)) && s == Interleaved(gaps, Words(s))
    ensures s != "" && IsSpace(s[0]) ==> gaps[0] != ""
    decreases |s|
  {
    GapHasNoWords(s);
    if Words(s) == [] {
      gaps := [s];
    } else {
      var gap, rest := FirstWord(s);
      var others := WordsAreSpaced(rest);
      gaps := [gap] + others;
      GapsJoin(gap, others, rest);
      assert Words(s) == [Words(s)[0]] + Words(s)[1..];
      assert gaps[1..] == others;
    }
  }

  lemma GapsJoin(gap: string, others: seq<string>, rest: string)
    requires Gap(gap) && Gaps(others) && others != [] && (|others| > 1 ==> others[0] != "")
    ensures Gaps([gap] + others)
  {
    var gaps := [gap] + others;
    assert forall i :: 0 < i < |gaps| ==> gaps[i] == others[i - 1];
  }

  lemma {:induction false} SpacedGivesWords(gaps: seq<string>, ws: seq<string>)
    requires |gaps| == |ws| + 1 && Gaps(gaps) && AllWords(ws)
    ensures Words(Interleaved(gaps, ws)) == ws
    ensures gaps[0] != "" ==> Interleaved(gaps, ws) != "" && IsSpace(Interleaved(gaps, ws)[0])
    decreases |ws|
  {
    if ws == [] {
      GapHasNoWords(gaps[0]);
    } else {
      var rest := Interleaved(gaps[1..], ws[1..]);
      SpacedGivesWords(gaps[1..], ws[1..]);
      assert rest == "" || IsSpace(rest[0]) by {
        if |ws| == 1 { assert rest == gaps[1]; }
      }
      WordsStep(gaps[0], ws[0], rest);
    }
  }

  /** Splitting gives exactly the words the text is made of. */
  lemma WordsIff(s: string, ws: seq<string>)
    ensures Words(s) == ws <==> Spaced(s, ws)
  {
    var own := WordsAreSpaced(s);
    if Spaced(s, ws) {
      var gaps :| |gaps| == |ws| + 1 && Gaps(gaps) && s == Interleaved(gaps, ws);
      SpacedGivesWords(gaps, ws);
    }
  }

  // ---- the CPU ----

  predicate All(c: char, s: string) { forall i :: 0 <= i < |s| ==> s[i] == c }

  lemma {:induction false} TrimTakes(s: string, c: char) returns (a: string, b: string)
    ensures All(c, a) && All(c, b) && s == a + TrimChar(s, c) + b
    ensures var r := TrimChar(s, c); r != "" ==> r[0] != c && r[|r| - 1] != c
    decreases |s|
  {
    if s != "" && s[0] == c {
      a, b := TrimTakes(s[1..], c);
      a := [c] + a;
      assert s == [c] + s[1..];
    } else if s != "" && s[|s| - 1] == c {
      a, b := TrimTakes(s[..|s| - 1], c);
      b := b + [c];
      assert s == s[..|s| - 1] + [c];
    } else {
      a, b := "", "";
    }
  }

  lemma {:induction false} TrimGives(a: string, r: string, b: string, c: char)
    requires All(c, a) && All(c, b) && r != "" && r[0] != c && r[|r| - 1] != c
    ensures TrimChar(a + r + b, c) == r
    decreases |a| + |b|
  {
    var s := a + r + b;
    if a != "" {
      assert s[1..] == a[1..] + r + b;
      TrimGives(a[1..], r, b, c);
    } else if b != "" {
      assert s[0] == r[0] && s[..|s| - 1] == a + r + b[..|b| - 1];
      TrimGives(a, r, b[..|b| - 1], c);
    } else {
      assert s == r;
    }
  }

  /** Digits with at most one sign in front. */
  ghost predicate Number(s: string) {
    exists ds :: ds != "" && AllDigits(ds) && s in {ds, "+" + ds, "-" + ds}
  }

  lemma NumberIff(s: string)
    ensures (if s == "" || s[0] != '+' then SignedValue(s) else IntOf(s[1..])).Some? <==> Number(s)
    ensures Number(s) ==> s != "" && s[0] !in "[]" && s[|s| - 1] !in "[]"
  {
    if ds :| ds != "" && AllDigits(ds) && s in {ds, "+" + ds, "-" + ds} {
      assert IsDigit(ds[0]) && IsDigit(ds[|ds| - 1]) && s[|s| - 1] == ds[|ds| - 1];
      assert s == ds || s[1..] == ds;
    }
    if s != "" && s[0] in "+-" { assert s == [s[0]] + s[1..]; }
  }

  /** A number, possibly between closing brackets, possibly between opening ones. */
  ghost predicate Bracketed(w: string) {
    exists a, b, n, c, d :: ShellOf(w, a, b, n, c, d)
  }

  ghost predicate ShellOf(w: string, a: string, b: string, n: string, c: string, d: string) {
    All('[', a) && All(']', b) && Number(n) && All(']', c) && All('[', d) && w == a + (b + n + c) + d
  }

  lemma CpuIff(w: string)
    ensures CpuOf(w).Some? <==> Bracketed(w)
  {
    var s := TrimChar(TrimChar(w, '['), ']');
    NumberIff(s);
    if CpuOf(w).Some? {
      var a, d := TrimTakes(w, '[');
      var b, c := TrimTakes(TrimChar(w, '['), ']');
      assert ShellOf(w, a, b, s, c, d);
    }
    if a, b, n, c, d :| ShellOf(w, a, b, n, c, d) {
      NumberIff(n);
      var t := b + n + c;
      assert t[0] == if b == "" then n[0] else b[0];
      assert t[|t| - 1] == if c == "" then n[|n| - 1] else c[|c| - 1];
      TrimGives(a, t, d, '[');
      TrimGives(b, n, c, ']');
    }
  }

  // ---- the fields ----

  /** key=value, with no other equal sign. */
  ghost predicate OneEqual(s: string) {
    exists k, v :: s == k + "=" + v && Without('=', k) && Without('=', v)
  }

  lemma {:induction false} RemoveConcat(a: string, b: string, c: char)
    ensures Remove(a + b, c) == Remove(a, c) + Remove(b, c)
  {
    if a == "" {
      assert a + b == b;
    } else {
      var s := a + b;
      assert s[0] == a[0] && s[1..] == a[1..] + b;
      RemoveConcat(a[1..], b, c);
      var h: string := if a[0] == c then [] else [a[0]];
      assert Remove(s, c) == h + Remove(s[1..], c) && Remove(a, c) == h + Remove(a[1..], c);
    }
  }

  lemma HeadWithout(d: char, h: char, t: string)
    ensures Without(d, [h] + t) <==> h != d && Without(d, t)
  {
    var s := [h] + t;
    assert s[0] == h && s[1..] == t;
    assert forall i :: 0 <= i < |t| ==> t[i] == s[i + 1];
  }

  lemma {:induction false} RemoveKeeps(s: string, c: char, d: char)
    requires c != d
    ensures Without(d, Remove(s, c)) <==> Without(d, s)
  {
    if s != "" {
      RemoveKeeps(s[1..], c, d);
      HeadWithout(d, s[0], s[1..]);
      HeadWithout(d, s[0], Remove(s[1..], c));
      assert s == [s[0]] + s[1..];
      assert [] + Remove(s[1..], c) == Remove(s[1..], c);
    }
  }

  lemma OnePiece(c: char, s: string)
    ensures |SplitOn(c, s)| == 1 <==> Without(c, s)
  {
    SplitHead(c, s);
    if Without(c, s) { NoneToSplit(c, s); }
  }

  /** One cut: what comes after it decides how many pieces there are. */
  lemma OneCut(c: char, a: string, b: string)
    requires Without(c, a)
    ensures |SplitOn(c, a + [c] + b)| == 1 + |SplitOn(c, b)|
  {
    var s := a + [c] + b;
    ToCharOf(c, a, [c] + b);
    assert a + ([c] + b) == s;
    NoneToSplit(c, a);
    assert s[|a| + 1..] == b;
    SplitHead(c, s);
  }

  lemma EqualIsThere(t: string)
    ensures OneEqual(t) ==> !Without('=', t)
  {
    if k, v :| t == k + "=" + v && Without('=', k) && Without('=', v) { assert t[|k|] == '='; }
  }

  lemma OneMeansNoMore(k: string, v: string)
    requires Without('=', k)
    ensures OneEqual(k + "=" + v) <==> Without('=', v)
  {
    if k', v' :| k + "=" + v == k' + "=" + v' && Without('=', k') && Without('=', v') { SameKey(k, v, k', v'); }
  }

  lemma FieldIff(t: string)
    ensures |SplitOn('=', Remove(t, ' '))| == 2 <==> OneEqual(t)
  {
    var n := ToChar(t, '=');
    if n == |t| {
      RemoveKeeps(t, ' ', '=');
      OnePiece('=', Remove(t, ' '));
      EqualIsThere(t);
    } else {
      var k, v := t[..n], t[n + 1..];
      assert t == k + "=" + v;
      FieldCut(k, v);
      OneMeansNoMore(k, v);
    }
  }

  lemma SameKey(k: string, v: string, k': string, v': string)
    requires k + "=" + v == k' + "=" + v' && Without('=', k) && Without('=', k')
    ensures k == k' && v == v'
  {
    var s, s' := k + "=" + v, k' + "=" + v';
    assert s[|k|] == '=' && s'[|k'|] == '=';
    assert forall i :: 0 <= i < |k| ==> s[i] == k[i];
    assert forall i :: 0 <= i < |k'| ==> s'[i] == k'[i];
    assert |k| == |k'|;
    assert s[..|k|] == k && s'[..|k'|] == k';
    assert s[|k| + 1..] == v && s'[|k'| + 1..] == v';
  }

  lemma FieldCut(k: string, v: string)
    requires Without('=', k)
    ensures |SplitOn('=', Remove(k + "=" + v, ' '))| == 2 <==> Without('=', v)
  {
    RemoveConcat(k + "=", v, ' ');
    RemoveConcat(k, "=", ' ');
    assert Remove("=", ' ') == "=" by { RemoveNothing("="); }
    RemoveKeeps(k, ' ', '=');
    RemoveKeeps(v, ' ', '=');
    OneCut('=', Remove(k, ' '), Remove(v, ' '));
    OnePiece('=', Remove(v, ' '));
  }

  ghost predicate AllEqual(fields: seq<string>) { forall i :: 0 <= i < |fields| ==> OneEqual(fields[i]) }

  lemma LastEqual(fields: seq<string>)
    requires fields != []
    ensures AllEqual(fields) <==> AllEqual(fields[..|fields| - 1]) && OneEqual(fields[|fields| - 1])
  {
    var init := fields[..|fields| - 1];
    assert forall i :: 0 <= i < |init| ==> init[i] == fields[i];
  }

  lemma {:induction false} FieldsIff(r: Record, fields: seq<string>)
    ensures WithFields(r, fields).Some? <==> AllEqual(fields)
  {
    if fields != [] {
      FieldsIff(r, fields[..|fields| - 1]);
      FieldIff(fields[|fields| - 1]);
      LastEqual(fields);
    }
  }

  ghost predicate NoCommas(fields: seq<string>) { forall i :: 0 <= i < |fields| ==> Without(',', fields[i]) }

  lemma {:induction false} PiecesHaveNoCommas(s: string)
    ensures SplitOn(',', s) != [] && NoCommas(SplitOn(',', s))
    decreases |s|
  {
    var n := ToChar(s, ',');
    SplitHead(',', s);
    if n < |s| {
      PiecesHaveNoCommas(s[n + 1..]);
      assert forall i :: 0 < i < |SplitOn(',', s)| ==> SplitOn(',', s)[i] == SplitOn(',', s[n + 1..])[i - 1];
    }
  }

  /** The body, not empty, neither starts nor ends in a newline. */
  predicate Inside(body: string) { body != "" && body[0] != '\n' && body[|body| - 1] != '\n' }

  /** key=value fields separated by commas, with newlines in front and behind. */
  ghost predicate DataOf(data: string, a: string, fields: seq<string>, b: string) {
    && All('\n', a) && All('\n', b) && fields != [] && NoCommas(fields) && AllEqual(fields)
    && Inside(Joined(fields)) && data == a + Joined(fields) + b
  }

  ghost predicate GoodData(data: string) { exists a, fields, b :: DataOf(data, a, fields, b) }

  lemma EmptyIsNoField()
    ensures !AllEqual(SplitOn(',', ""))
  {
    NoneToSplit(',', "");
    assert SplitOn(',', "")[0] == "" && !OneEqual("");
  }

  lemma DataIff(r: Record, data: string)
    ensures WithFields(r, SplitOn(',', TrimChar(data, '\n'))).Some? <==> GoodData(data)
  {
    var body := TrimChar(data, '\n');
    var fields := SplitOn(',', body);
    FieldsIff(r, fields);
    PiecesHaveNoCommas(body);
    SplitJoins(body);
    if AllEqual(fields) {
      EmptyIsNoField();
      var a, b := TrimTakes(data, '\n');
      assert DataOf(data, a, fields, b);
    }
    if a, fs, b :| DataOf(data, a, fs, b) {
      TrimGives(a, Joined(fs), b, '\n');
      JoinSplits(fs);
    }
  }

  // ---- which lines are refused ----

  /** Four words: thread and pid with a dash between them, a CPU in brackets, at least four flags, a time stamp. */
  ghost predicate GoodHead(head: string, ws: seq<string>) {
    |ws| == 4 && Spaced(head, ws) && !Without('-', ws[0]) && Bracketed(ws[1]) && |ws[2]| >= 4
  }

  ghost predicate Readable(line: string) {
    exists head, event, data, ws ::
      line == head + ": " + event + ": " + data && NoColon(event) && NoColon(data) && GoodHead(head, ws) && GoodData(data)
  }

  lemma HeadIff(head: string)
    ensures var ws := Words(head); GoodHead(head, ws) <==>
      |ws| == 4 && LastDash(ws[0]).Some? && CpuOf(ws[1]).Some? && |ws[2]| >= 4
    ensures forall ws :: GoodHead(head, ws) ==> ws == Words(head)
  {
    var own := Words(head);
    WordsIff(head, own);
    if |own| == 4 { CpuIff(own[1]); }
    forall ws | GoodHead(head, ws) ensures ws == own { WordsIff(head, ws); }
  }

  /** A line is refused exactly if it is not of this form: a head of four words, an event and the data, separated by the last
      two ": "; a dash in the first word, a number in brackets for the second, four characters in the third; and every field of
      the data, between commas, with one equal sign. */
  lemma RefusedIff(line: string)
    ensures Encode(line).None? <==> !Readable(line)
  {
    if ThreeParts(line).Some? {
      var (head, event, data) := ThreeParts(line).value;
      ThreePartsIff(line, head, event, data);
      PartsDecide(line, head, event, data);
    }
    if head, event, data, ws :|
      line == head + ": " + event + ": " + data && NoColon(event) && NoColon(data) && GoodHead(head, ws) && GoodData(data)
    {
      ThreePartsIff(line, head, event, data);
      PartsDecide(line, head, event, data);
    }
  }

  lemma PartsDecide(line: string, head: string, event: string, data: string)
    requires ThreeParts(line) == Some((head, event, data))
    ensures Encode(line).Some? <==> GoodHead(head, Words(head)) && GoodData(data)
    ensures forall ws :: GoodHead(head, ws) ==> ws == Words(head)
  {
    HeadIff(head);
    forall r ensures WithFields(r, SplitOn(',', TrimChar(data, '\n'))).Some? <==> GoodData(data) { DataIff(r, data); }
  }

  // ---- whole files ----

  ghost function Good(lines: seq<string>): nat -> bool {
    (i: nat) => i < |lines| && Readable(lines[i])
  }

  ghost predicate RecordsAre(lines: seq<string>, at: seq<nat>, rs: seq<Record>) {
    |rs| == |at| && forall k :: 0 <= k < |at| ==> at[k] < |lines| && Encode(lines[at[k]]) == Some(rs[k])
  }

  lemma RecordsMore(lines: seq<string>, at: seq<nat>, rs: seq<Record>, r: Record)
    requires at != [] && at[|at| - 1] < |lines| && Encode(lines[at[|at| - 1]]) == Some(r)
    requires RecordsAre(lines, at[..|at| - 1], rs)
    ensures RecordsAre(lines, at, rs + [r])
  {
    var init := at[..|at| - 1];
    assert forall k :: 0 <= k < |init| ==> init[k] == at[k];
  }

  lemma EncodeNext(lines: seq<string>, n: nat)
    requires n < |lines|
    ensures EncodeAll(lines[..n + 1])
      == EncodeAll(lines[..n]) + if Encode(lines[n]).Some? then [Encode(lines[n]).value] else []
  {
    assert lines[..n + 1][..n] == lines[..n];
  }

  lemma {:induction false} EncodedSoFar(lines: seq<string>, at: seq<nat>, n: nat)
    requires n <= |lines| && Lists(at, n, Good(lines))
    ensures RecordsAre(lines, at, EncodeAll(lines[..n]))
    decreases n
  {
    if n == 0 {
      ListsNothing(at, Good(lines));
    } else {
      ListsStep(at, n - 1, Good(lines));
      EncodeNext(lines, n - 1);
      RefusedIff(lines[n - 1]);
      if Readable(lines[n - 1]) {
        EncodedSoFar(lines, at[..|at| - 1], n - 1);
        RecordsMore(lines, at, EncodeAll(lines[..n - 1]), Encode(lines[n - 1]).value);
      } else {
        EncodedSoFar(lines, at, n - 1);
      }
    }
  }

  /** A file becomes one record for each line of the form above, in order, and nothing else. */
  lemma OneRecordPerGoodLine(lines: seq<string>, at: seq<nat>)
    requires Lists(at, |lines|, Good(lines))
    ensures RecordsAre(lines, at, EncodeAll(lines))
  {
    EncodedSoFar(lines, at, |lines|);
    assert lines[..|lines|] == lines;
  }

  /** The printed lines ls stand at these places, in order, and no other line of the file is of the form above. */
  ghost predicate PrintedAt(lines: seq<string>, at: seq<nat>, ls: seq<Line>) {
    && |at| == |ls| && (forall i, j :: 0 <= i < j < |at| ==> at[i] < at[j])
    && (forall k :: 0 <= k < |ls| ==> ls[k].Valid() && at[k] < |lines| && lines[at[k]] == ls[k].Text())
    && (forall i: nat :: i < |lines| && i !in at ==> !Readable(lines[i]))
  }

  /** The prefix and the fields of a printed line. */
  function RecordOf(l: Line): Record
    requires l.Valid()
  {
    Over(Prefix(l.task, l.pid, ValueOf(l.cpu), l.sched, l.timestamp), l.fields)
  }

  lemma PrintedIsGood(l: Line)
    requires l.Valid()
    ensures Readable(l.Text())
  {
    RoundTrip(l);
    RefusedIff(l.Text());
  }

  lemma PrintedAreListed(lines: seq<string>, at: seq<nat>, ls: seq<Line>)
    requires PrintedAt(lines, at, ls)
    ensures Lists(at, |lines|, Good(lines))
  {
    forall k | 0 <= k < |at| ensures Good(lines)(at[k]) {
      assert ls[k].Valid();
      PrintedIsGood(ls[k]);
    }
  }

  /** The script on a file of printed lines with any lines that are refused among them: as many records as printed lines, each
      with the prefix and every field of its line. */
  lemma FileRoundTrip(lines: seq<string>, at: seq<nat>, ls: seq<Line>)
    requires PrintedAt(lines, at, ls)
    ensures |EncodeAll(lines)| == |ls|
    ensures forall k :: 0 <= k < |ls| ==> ls[k].Valid() && EncodeAll(lines)[k] == RecordOf(ls[k])
  {
    PrintedAreListed(lines, at, ls);
    OneRecordPerGoodLine(lines, at);
    forall k | 0 <= k < |ls| ensures ls[k].Valid() && EncodeAll(lines)[k] == RecordOf(ls[k]) {
      RoundTrip(ls[k]);
    }
  }

  /** Line l is the trace line of the scheduling event sw. */
  predicate Traces(l: Line, sw: Switch) {
    && l.Valid() && l.fields == FieldsOf(sw) && ValueOf(l.cpu) == sw.cpu && Plain(sw.prevComm) && Plain(sw.nextComm)
    && sw.prevState < LONG_LIMIT && sw.nextState < LONG_LIMIT
  }

  /** From the trace file to the analyzer's loader: the i-th record of a file of scheduling events, with lines that are refused
      among them, loads as the i-th event. */
  lemma TraceFileLoads(lines: seq<string>, at: seq<nat>, ls: seq<Line>, sws: seq<Switch>)
    requires PrintedAt(lines, at, ls) && |ls| == |sws| && forall k :: 0 <= k < |ls| ==> Traces(ls[k], sws[k])
    ensures |EncodeAll(lines)| == |sws|
    ensures forall k :: 0 <= k < |sws| ==> LoadsAs(EncodeAll(lines)[k], sws[k].cpu, sws[k])
  {
    FileRoundTrip(lines, at, ls);
    forall k | 0 <= k < |sws| ensures LoadsAs(EncodeAll(lines)[k], sws[k].cpu, sws[k]) {
      TracedLoads(ls[k], sws[k]);
    }
  }

  lemma TracedLoads(l: Line, sw: Switch)
    requires Traces(l, sw)
    ensures LoadsAs(RecordOf(l), sw.cpu, sw)
  {
    OverLoads(Prefix(l.task, l.pid, ValueOf(l.cpu), l.sched, l.timestamp), sw, ValueOf(l.cpu));
  }
}
