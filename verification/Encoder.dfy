/** The line parser of the encoder script, and the trace lines it reads. */
module Encoder {
  import opened Events
  import opened Text

  // ---- taking a line apart ----

  predicate ColonAt(s: string, i: int) { 0 <= i < |s| - 1 && s[i] == ':' && s[i + 1] == ' ' }

  /** The last place of ": ", searched from the right. */
  function LastColon(s: string): (r: Option<nat>)
    ensures r.Some? ==> ColonAt(s, r.value) && forall i :: r.value < i ==> !ColonAt(s, i)
    ensures r.None? ==> forall i :: !ColonAt(s, i)
  {
    if |s| < 2 then None
    else if s[|s| - 2] == ':' && s[|s| - 1] == ' ' then Some(|s| - 2)
    else
      var r := LastColon(s[..|s| - 1]);
      assert forall i :: ColonAt(s, i) && i != |s| - 2 ==> ColonAt(s[..|s| - 1], i);
      r
  }

  /** rsplit at the last two ": ": three parts, or the line is refused. */
  function ThreeParts(s: string): Option<(string, string, string)> {
    var j := LastColon(s);
    if j.None? then None else
    var i := LastColon(s[..j.value]);
    if i.None? then None
    else Some((s[..i.value], s[i.value + 2..j.value], s[j.value + 2..]))
  }

  function WordEnd(s: string): (n: nat)
    ensures n <= |s| && (forall i :: 0 <= i < n ==> !IsSpace(s[i])) && (n < |s| ==> IsSpace(s[n]))
  {
    if s == [] || IsSpace(s[0]) then 0 else 1 + WordEnd(s[1..])
  }

  /** Python's split without an argument. */
  function Words(s: string): seq<string>
    decreases |s|
  {
    if s == [] then []
    else if IsSpace(s[0]) then Words(s[1..])
    else [s[..WordEnd(s)]] + Words(s[WordEnd(s)..])
  }

  /** The last '-', at which comm and pid are separated. */
  function LastDash(s: string): (r: Option<nat>)
    ensures r.Some? ==> r.value < |s| && s[r.value] == '-' && forall i :: r.value < i < |s| ==> s[i] != '-'
    ensures r.None? ==> Without('-', s)
  {
    if s == [] then None
    else if s[|s| - 1] == '-' then Some(|s| - 1)
    else LastDash(s[..|s| - 1])
  }

  function TrimChar(s: string, c: char): string {
    if s != [] && s[0] == c then TrimChar(s[1..], c)
    else if s != [] && s[|s| - 1] == c then TrimChar(s[..|s| - 1], c)
    else s
  }

  function Remove(s: string, c: char): string {
    if s == [] then [] else (if s[0] == c then [] else [s[0]]) + Remove(s[1..], c)
  }

  /** Digits and nothing else. */
  function IntOf(s: string): Option<nat> {
    if s != [] && AllDigits(s) then Some(ValueOf(s)) else None
  }

  /** A whole number the way Go's JSON decoder reads it from a string. */
  function SignedValue(s: string): Option<int> {
    if s == "" || s[0] != '-' then IntOf(s) else
    var n := IntOf(s[1..]);
    if n.None? then None else
    var v: int := n.value;
    Some(-v)
  }

  /** The CPU, behind its brackets: Python's int also takes a plus sign. */
  function CpuOf(word: string): Option<int> {
    var s := TrimChar(TrimChar(word, '['), ']');
    if s == "" || s[0] != '+' then SignedValue(s) else IntOf(s[1..])
  }

  datatype Value = Str(s: string) | Int(n: int)

  type Record = map<string, Value>

  /** The fields of the data part, one after the other; None as soon as one is not of the form key=value. */
  function WithFields(r: Record, fields: seq<string>): Option<Record> {
    if fields == [] then Some(r) else
    var before := WithFields(r, fields[..|fields| - 1]);
    var kv := SplitOn('=', Remove(fields[|fields| - 1], ' '));
    if before.None? || |kv| != 2 then None else Some(before.value[kv[0] := Str(kv[1])])
  }

  function Prefix(task: string, pid: string, cpu: int, sched: string, timestamp: string): Record
    requires |sched| >= 4
  {
    map["comm" := Str(task), "pid" := Str(pid), "cpu" := Int(cpu), "irqs_off" := Str(sched[..1]),
        "need_resched" := Str(sched[1..2]), "ctx" := Str(sched[2..3]), "preempt_depth" := Str(sched[3..4]),
        "timestamp" := Str(timestamp)]
  }

  /** What becomes of one line; None is a bad line, which is reported and skipped. */
  function Encode(line: string): Option<Record> {
    var parts := ThreeParts(line);
    if parts.None? then None else
    var words := Words(parts.value.0);
    if |words| != 4 then None else
    var dash := LastDash(words[0]);
    var cpu := CpuOf(words[1]);
    if dash.None? || cpu.None? || |words[2]| < 4 then None else
    WithFields(Prefix(words[0][..dash.value], words[0][dash.value + 1..], cpu.value, words[2], words[3]),
               SplitOn(',', TrimChar(parts.value.2, '\n')))
  }

  method EncodeLine(line: string) returns (structed: Option<Record>)
    ensures structed == Encode(line)
  {
    var parts := ThreeParts(line);
    if parts.None? {
      return None;
    }
    var words := Words(parts.value.0);
    if |words| != 4 {
      return None;
    }
    var dash, cpu, sched := LastDash(words[0]), CpuOf(words[1]), words[2];
    if dash.None? || cpu.None? || |sched| < 4 {
      return None;
    }
    var r := Prefix(words[0][..dash.value], words[0][dash.value + 1..], cpu.value, sched, words[3]);
    structed := AddFields(r, SplitOn(',', TrimChar(parts.value.2, '\n')));
  }

  method AddFields(prefix: Record, fields: seq<string>) returns (structed: Option<Record>)
    ensures structed == WithFields(prefix, fields)
  {
    var r := prefix;
    for i := 0 to |fields|
      invariant WithFields(prefix, fields[..i]) == Some(r)
    {
      assert fields[..i + 1][..i] == fields[..i];
      var kv := SplitOn('=', Remove(fields[i], ' '));
      if |kv| != 2 {
        NoneStays(prefix, fields, i + 1);
        return None;
      }
      r := r[kv[0] := Str(kv[1])];
    }
    assert fields[..|fields|] == fields;
    structed := Some(r);
  }

  lemma {:induction false} NoneStays(r: Record, fields: seq<string>, i: nat)
    requires i <= |fields| && WithFields(r, fields[..i]).None?
    ensures WithFields(r, fields).None?
    decreases |fields|
  {
    if i == |fields| {
      assert fields[..i] == fields;
    } else {
      assert fields[..|fields| - 1][..i] == fields[..i];
      NoneStays(r, fields[..|fields| - 1], i);
    }
  }

  function EncodeAll(lines: seq<string>): seq<Record> {
    if lines == [] then []
    else EncodeAll(lines[..|lines| - 1])
         + (if Encode(lines[|lines| - 1]).Some? then [Encode(lines[|lines| - 1]).value] else [])
  }

  method EncodeLines(lines: seq<string>) returns (objs: seq<Record>)
    ensures objs == EncodeAll(lines)
  {
    objs := [];
    for i := 0 to |lines|
      invariant objs == EncodeAll(lines[..i])
    {
      assert lines[..i + 1][..i] == lines[..i];
      var r := EncodeLine(lines[i]);
      if r.Some? {
        objs := objs + [r.value];
      }
    }
    assert lines[..|lines|] == lines;
  }

  lemma {:induction false} EncodeConcat(a: seq<string>, b: seq<string>)
    ensures EncodeAll(a + b) == EncodeAll(a) + EncodeAll(b)
    decreases |b|
  {
    if b == [] {
      assert a + b == a;
    } else {
      assert (a + b)[..|a + b| - 1] == a + b[..|b| - 1];
      EncodeConcat(a, b[..|b| - 1]);
    }
  }

  /** A line that cannot be read changes nothing about the records of the other lines. */
  lemma BadLineIsSkipped(a: seq<string>, bad: string, b: seq<string>)
    requires Encode(bad).None?
    ensures EncodeAll(a + [bad] + b) == EncodeAll(a + b)
  {
    EncodeConcat(a + [bad], b);
    EncodeConcat(a, [bad]);
    EncodeConcat(a, b);
    assert [bad][..0] == [];
  }

  // ---- the lines the probes print ----

  /** One printed field: key=value, behind a number of spaces if another field comes before. */
  datatype Field = Field(spaces: nat, key: string, value: string) {
    function Pair(): string { key + "=" + value }
  }

  function Spaces(n: nat): string { seq(n, _ => ' ') }

  /** TP_printk: the fields, separated by commas and the spaces in front of each. */
  function Print(fs: seq<Field>): string {
    if fs == [] then ""
    else if |fs| == 1 then fs[0].Pair()
    else Print(fs[..|fs| - 1]) + [','] + (Spaces(fs[|fs| - 1].spaces) + fs[|fs| - 1].Pair())
  }

  predicate Plain(s: string) {
    forall i :: 0 <= i < |s| ==> !IsSpace(s[i]) && s[i] != ',' && s[i] != '='
  }

  predicate PlainFields(fs: seq<Field>) {
    forall i :: 0 <= i < |fs| ==> Plain(fs[i].key) && Plain(fs[i].value) && fs[i].key != ""
  }

  /** The record of the fields on top of the prefix. */
  function Over(r: Record, fs: seq<Field>): Record {
    if fs == [] then r else Over(r, fs[..|fs| - 1])[fs[|fs| - 1].key := Str(fs[|fs| - 1].value)]
  }

  predicate Word(s: string) { s != "" && forall i :: 0 <= i < |s| ==> !IsSpace(s[i]) }

  predicate Gap(s: string) { forall i :: 0 <= i < |s| ==> IsSpace(s[i]) }

  /** A line of the trace pipe: the padded task, its pid, the CPU in brackets, the flags, the time stamp, the event. */
  datatype Line = Line(pad: string, task: string, pid: string, gap1: string, cpu: string, gap2: string, sched: string,
                       gap3: string, timestamp: string, event: string, fields: seq<Field>)
  {
    predicate Valid() {
      && Gap(pad) && Word(task) && Word(pid) && Without('-', pid)
      && Gap(gap1) && gap1 != "" && cpu != "" && AllDigits(cpu)
      && Gap(gap2) && gap2 != "" && Word(sched) && |sched| >= 4
      && Gap(gap3) && gap3 != "" && Word(timestamp) && Word(event)
      && fields != [] && PlainFields(fields)
    }

    function Head(): string {
      pad + (task + "-" + pid) + gap1 + ("[" + cpu + "]") + gap2 + sched + gap3 + timestamp
    }

    function Text(): string {
      Head() + ": " + event + ": " + Print(fields) + "\n"
    }
  }

  lemma {:induction false} WordEndOf(w: string, rest: string)
    requires (forall i :: 0 <= i < |w| ==> !IsSpace(w[i])) && (rest == "" || IsSpace(rest[0]))
    ensures WordEnd(w + rest) == |w|
  {
    if w == "" {
      assert w + rest == rest;
    } else {
      assert (w + rest)[1..] == w[1..] + rest;
      WordEndOf(w[1..], rest);
    }
  }

  lemma {:induction false} WordsStep(gap: string, w: string, rest: string)
    requires Gap(gap) && Word(w) && (rest == "" || IsSpace(rest[0]))
    ensures Words(gap + w + rest) == [w] + Words(rest)
    decreases |gap|
  {
    if gap == "" {
      assert gap + w + rest == w + rest;
      WordEndOf(w, rest);
      assert (w + rest)[..|w|] == w && (w + rest)[|w|..] == rest;
    } else {
      assert (gap + w + rest)[1..] == gap[1..] + w + rest;
      WordsStep(gap[1..], w, rest);
    }
  }

  lemma {:induction false} HeadWords(l: Line)
    requires l.Valid()
    ensures Words(l.Head()) == [l.task + "-" + l.pid, "[" + l.cpu + "]", l.sched, l.timestamp]
  {
    var w1, w2 := l.task + "-" + l.pid, "[" + l.cpu + "]";
    var r3 := l.gap3 + l.timestamp;
    var r2 := l.gap2 + l.sched + r3;
    var r1 := l.gap1 + w2 + r2;
    assert Word(w1) && Word(w2);
    assert l.Head() == l.pad + w1 + r1;
    WordsStep(l.pad, w1, r1);
    WordsStep(l.gap1, w2, r2);
    WordsStep(l.gap2, l.sched, r3);
    assert r3 == l.gap3 + l.timestamp + "";
    WordsStep(l.gap3, l.timestamp, "");
  }

  ghost predicate NoColon(s: string) { forall i :: !ColonAt(s, i) }

  /** No value can hide a ": ", because the only spaces printed follow a comma or another space. */
  lemma {:induction false} PrintHasNoColon(fs: seq<Field>)
    requires PlainFields(fs)
    ensures NoColon(Print(fs)) && (fs != [] ==> Print(fs) != "" && !IsSpace(Print(fs)[0]))
  {
    if |fs| == 1 {
      assert forall i :: 0 <= i < |Print(fs)| ==> !IsSpace(Print(fs)[i]);
    } else if |fs| > 1 {
      var f := fs[|fs| - 1];
      PrintHasNoColon(fs[..|fs| - 1]);
      assert forall i :: 0 <= i < |f.Pair()| ==> !IsSpace(f.Pair()[i]);
      AppendNoColon(Print(fs[..|fs| - 1]), f.spaces, f.Pair());
    }
  }

  lemma AppendNoColon(p: string, n: nat, t: string)
    requires NoColon(p) && forall i :: 0 <= i < |t| ==> !IsSpace(t[i])
    ensures NoColon(p + [','] + (Spaces(n) + t))
  {
    var s := p + [','] + (Spaces(n) + t);
    forall i ensures !ColonAt(s, i) {
      if 0 <= i < |p| - 1 { assert !ColonAt(p, i) && s[i] == p[i] && s[i + 1] == p[i + 1]; }
    }
  }

  lemma LastColonIs(s: string, k: nat)
    requires ColonAt(s, k) && forall i :: k < i ==> !ColonAt(s, i)
    ensures LastColon(s) == Some(k)
  {
    var r := LastColon(s);
    assert r.Some?;
    assert ColonAt(s, r.value);
  }

  lemma ColonInTail(s: string, b: string, k: nat)
    requires k <= |s| && s[k..] == b
    ensures forall i :: k <= i ==> (ColonAt(s, i) <==> ColonAt(b, i - k))
  {
    assert forall i :: k <= i < |s| ==> s[i] == b[i - k];
  }

  lemma ColonBetween(a: string, b: string)
    ensures var s := a + ": " + b; s[..|a|] == a && s[|a| + 2..] == b && s[|a|] == ':' && s[|a| + 1] == ' '
  {
  }

  lemma CutAtColon(a: string, b: string)
    requires NoColon(b)
    ensures LastColon(a + ": " + b) == Some(|a|)
    ensures (a + ": " + b)[..|a|] == a && (a + ": " + b)[|a| + 2..] == b
  {
    var s := a + ": " + b;
    ColonBetween(a, b);
    ColonInTail(s, b, |a| + 2);
    forall i | |a| < i ensures !ColonAt(s, i) {
      if |a| + 2 <= i { assert !ColonAt(b, i - |a| - 2); }
    }
    LastColonIs(s, |a|);
  }

  lemma WordHasNoColon(w: string)
    requires forall i :: 0 <= i < |w| ==> !IsSpace(w[i])
    ensures NoColon(w)
  {
  }

  lemma NewlineHidesNoColon(s: string)
    requires NoColon(s)
    ensures NoColon(s + "\n")
  {
    forall i ensures !ColonAt(s + "\n", i) {
      if 0 <= i < |s| - 1 { assert !ColonAt(s, i); }
    }
  }

  lemma ThreePartsOf(a: string, b: string, c: string)
    requires NoColon(b) && NoColon(c)
    ensures ThreeParts(a + ": " + b + ": " + c) == Some((a, b, c))
  {
    var front := a + ": " + b;
    CutAtColon(front, c);
    CutAtColon(a, b);
    var s := front + ": " + c;
    assert s[|a| + 2..|front|] == s[..|front|][|a| + 2..] == b;
    assert s[..|a|] == s[..|front|][..|a|] == a;
  }

  lemma LineParts(l: Line)
    requires l.Valid()
    ensures ThreeParts(l.Text()) == Some((l.Head(), l.event, Print(l.fields) + "\n"))
  {
    PrintHasNoColon(l.fields);
    NewlineHidesNoColon(Print(l.fields));
    WordHasNoColon(l.event);
    var d := Print(l.fields) + "\n";
    assert l.Text() == l.Head() + ": " + l.event + ": " + d;
    ThreePartsOf(l.Head(), l.event, d);
  }

  lemma {:induction false} RemoveNothing(s: string)
    requires Without(' ', s)
    ensures Remove(s, ' ') == s
  {
    if s != [] { RemoveNothing(s[1..]); }
  }

  lemma {:induction false} SpacesRemoved(n: nat, t: string)
    requires Without(' ', t)
    ensures Remove(Spaces(n) + t, ' ') == t
  {
    if n == 0 {
      assert Spaces(0) + t == t;
      RemoveNothing(t);
    } else {
      assert (Spaces(n) + t)[1..] == Spaces(n - 1) + t && (Spaces(n) + t)[0] == ' ';
      SpacesRemoved(n - 1, t);
    }
  }

  lemma PairSplits(key: string, value: string)
    requires Without('=', key) && Without('=', value)
    ensures SplitOn('=', key + ['='] + value) == [key, value]
  {
    NoneToSplit('=', key);
    SplitAppends('=', key, value);
  }

  lemma FieldIsPlain(f: Field, n: nat)
    requires Plain(f.key) && Plain(f.value)
    ensures Without(',', f.Pair()) && Without(' ', f.Pair()) && Without(',', Spaces(n) + f.Pair())
  {
  }

  lemma FieldSplits(f: Field, n: nat)
    requires Plain(f.key) && Plain(f.value)
    ensures SplitOn('=', Remove(Spaces(n) + f.Pair(), ' ')) == [f.key, f.value]
  {
    FieldIsPlain(f, n);
    SpacesRemoved(n, f.Pair());
    assert f.Pair() == f.key + ['='] + f.value;
    PairSplits(f.key, f.value);
  }

  lemma OneMoreField(r: Record, pieces: seq<string>, t: string, f: Field)
    requires SplitOn('=', Remove(t, ' ')) == [f.key, f.value] && WithFields(r, pieces).Some?
    ensures WithFields(r, pieces + [t]) == Some(WithFields(r, pieces).value[f.key := Str(f.value)])
  {
    assert (pieces + [t])[..|pieces|] == pieces;
  }

  lemma PrintedOne(r: Record, f: Field)
    requires Plain(f.key) && Plain(f.value)
    ensures WithFields(r, SplitOn(',', f.Pair())) == Some(r[f.key := Str(f.value)])
  {
    FieldIsPlain(f, 0);
    FieldSplits(f, 0);
    NoneToSplit(',', f.Pair());
    assert Spaces(0) + f.Pair() == f.Pair();
    OneMoreField(r, [], f.Pair(), f);
    assert [] + [f.Pair()] == [f.Pair()];
  }

  /** One more field after the ones already printed. */
  lemma PrintedNext(r: Record, before: string, t: string, f: Field)
    requires Without(',', t) && SplitOn('=', Remove(t, ' ')) == [f.key, f.value]
    requires WithFields(r, SplitOn(',', before)).Some?
    ensures WithFields(r, SplitOn(',', before + [','] + t))
      == Some(WithFields(r, SplitOn(',', before)).value[f.key := Str(f.value)])
  {
    var pieces := SplitOn(',', before);
    SplitAppends(',', before, t);
    OneMoreField(r, pieces, t, f);
  }

  /** Splitting what was printed at the commas and the equal signs gives the fields back. */
  lemma {:induction false} PrintedFields(r: Record, fs: seq<Field>)
    requires PlainFields(fs) && fs != []
    ensures WithFields(r, SplitOn(',', Print(fs))) == Some(Over(r, fs))
  {
    var f := fs[|fs| - 1];
    if |fs| == 1 {
      PrintedOne(r, f);
      assert Over(r, fs[..0]) == r;
    } else {
      PrintedFields(r, fs[..|fs| - 1]);
      FieldIsPlain(f, f.spaces);
      FieldSplits(f, f.spaces);
      PrintedNext(r, Print(fs[..|fs| - 1]), Spaces(f.spaces) + f.Pair(), f);
    }
  }

  lemma {:induction false} LastDashOf(a: string, b: string)
    requires Without('-', b)
    ensures LastDash(a + "-" + b) == Some(|a|)
    decreases |b|
  {
    var s := a + "-" + b;
    if b != "" {
      assert s[..|s| - 1] == a + "-" + b[..|b| - 1];
      LastDashOf(a, b[..|b| - 1]);
    }
  }

  lemma CpuIs(cpu: string)
    requires cpu != "" && AllDigits(cpu)
    ensures CpuOf("[" + cpu + "]") == Some(ValueOf(cpu))
  {
    CpuTrims(cpu);
    assert IsDigit(cpu[0]);
  }

  lemma CpuTrims(cpu: string)
    requires cpu != "" && AllDigits(cpu)
    ensures TrimChar(TrimChar("[" + cpu + "]", '['), ']') == cpu
  {
    assert ("[" + cpu + "]")[1..] == cpu + "]";
    assert TrimChar("[" + cpu + "]", '[') == cpu + "]";
    assert (cpu + "]")[..|cpu|] == cpu;
    assert IsDigit(cpu[0]) && IsDigit(cpu[|cpu| - 1]);
  }

  lemma NewlineTrims(s: string)
    requires s != "" && !IsSpace(s[0]) && !IsSpace(s[|s| - 1])
    ensures TrimChar(s + "\n", '\n') == s
  {
    assert (s + "\n")[..|s|] == s;
  }

  lemma PrintEnds(fs: seq<Field>)
    requires PlainFields(fs) && fs != []
    ensures Print(fs) != "" && !IsSpace(Print(fs)[|Print(fs)| - 1])
  {
    var f := fs[|fs| - 1];
    var p := Print(fs);
    assert f.value == "" ==> p[|p| - 1] == '=';
    assert f.value != "" ==> p[|p| - 1] == f.value[|f.value| - 1];
  }

  lemma CutAtDash(a: string, b: string)
    ensures (a + "-" + b)[..|a|] == a && (a + "-" + b)[|a| + 1..] == b
  {
  }

  lemma DataTrims(fs: seq<Field>)
    requires PlainFields(fs) && fs != []
    ensures TrimChar(Print(fs) + "\n", '\n') == Print(fs)
  {
    PrintHasNoColon(fs);
    PrintEnds(fs);
    NewlineTrims(Print(fs));
  }

  /** Every line the tracer prints for a record is read back: the thread (dashes in its name included), pid, CPU, flags, time
      stamp, and every field. */
  lemma {:induction false} RoundTrip(l: Line)
    requires l.Valid()
    ensures Encode(l.Text()) == Some(Over(Prefix(l.task, l.pid, ValueOf(l.cpu), l.sched, l.timestamp), l.fields))
  {
    LineParts(l);
    HeadWords(l);
    LastDashOf(l.task, l.pid);
    CpuIs(l.cpu);
    EncodeOf(l.Text(), l.Head(), l.event, Print(l.fields) + "\n", l.task, l.pid, "[" + l.cpu + "]", l.sched, l.timestamp);
    DataTrims(l.fields);
    PrintedFields(Prefix(l.task, l.pid, ValueOf(l.cpu), l.sched, l.timestamp), l.fields);
  }

  /** A line whose parts and words are known. */
  lemma {:induction false} EncodeOf(text: string, head: string, event: string, data: string, task: string, pid: string,
                                    cpu: string, sched: string, timestamp: string)
    requires ThreeParts(text) == Some((head, event, data)) && Words(head) == [task + "-" + pid, cpu, sched, timestamp]
    requires LastDash(task + "-" + pid) == Some(|task|) && |sched| >= 4 && CpuOf(cpu).Some?
    ensures Encode(text) == WithFields(Prefix(task, pid, CpuOf(cpu).value, sched, timestamp),
                                       SplitOn(',', TrimChar(data, '\n')))
  {
    CutAtDash(task, pid);
  }

  /** With distinct keys, each field is found again under its key. */
  lemma {:induction false} EveryField(r: Record, fs: seq<Field>, i: nat)
    requires i < |fs| && forall j, k :: 0 <= j < k < |fs| ==> fs[j].key != fs[k].key
    ensures fs[i].key in Over(r, fs) && Over(r, fs)[fs[i].key] == Str(fs[i].value)
    decreases |fs|
  {
    if i < |fs| - 1 { EveryField(r, fs[..|fs| - 1], i); }
  }

  // ---- the scheduling events ----

  function Signed(n: int): string { if n < 0 then "-" + Decimal(-n) else Decimal(n) }

  /** do_exit prints one space more in front of the first pid. */
  function PidSpaces(sw: Switch): nat { if sw.kind == EXIT then 2 else 1 }

  const LONG_LIMIT: int := 0x8000_0000_0000_0000

  /** A task state as a signed long, which is how it is printed. */
  function LongOf(state: u64): int { if state < LONG_LIMIT then state else state - U64_LIMIT }

  /** The fields of __switch_to, try_to_wake_up, wake_up_new_task and do_exit, in the order they are printed. */
  function FieldsOf(sw: Switch): seq<Field> {
    [Field(1, "type", Signed(sw.kind)), Field(1, "tsc", Decimal(sw.time)),
     Field(1, "prev_comm", sw.prevComm), Field(1, "next_comm", sw.nextComm),
     Field(PidSpaces(sw), "prev_pid", Signed(sw.prevPid)), Field(1, "next_pid", Signed(sw.nextPid)),
     Field(1, "prev_state", Signed(LongOf(sw.prevState))), Field(1, "next_state", Signed(LongOf(sw.nextState))),
     Field(1, "in_which_ctx", Signed(sw.ctx))]
  }

  lemma {:induction false} SignedIsRead(n: int)
    ensures Plain(Signed(n)) && SignedValue(Signed(n)) == Some(n)
    ensures 0 <= n ==> Plain(Decimal(n)) && SignedValue(Decimal(n)) == Some(n)
  {
    if n < 0 { NegativeIsRead(-n); } else { DecimalIsRead(n); }
  }

  lemma {:induction false} DecimalIsRead(n: nat)
    ensures Plain(Decimal(n)) && SignedValue(Decimal(n)) == Some(n)
  {
    DecimalIsDigits(n);
    assert IsDigit(Decimal(n)[0]);
  }

  lemma {:induction false} NegativeIsRead(m: nat)
    ensures Plain("-" + Decimal(m)) && SignedValue("-" + Decimal(m)).Some? && SignedValue("-" + Decimal(m)).value + m == 0
  {
    DecimalIsDigits(m);
    assert ("-" + Decimal(m))[1..] == Decimal(m);
  }

  predicate HasText(r: Record, key: string, text: string) { key in r && r[key] == Str(text) }

  predicate HasNumber(r: Record, key: string, n: int) { key in r && r[key].Str? && SignedValue(r[key].s) == Some(n) }

  /** An unsigned field is not read from a text with a minus sign. */
  predicate HasUnsigned(r: Record, key: string, n: u64) { key in r && r[key].Str? && IntOf(r[key].s) == Some(n) }

  /** The analyzer's loader, field tag by field tag, finds the event in the record. */
  predicate LoadsAs(r: Record, cpu: int, sw: Switch) {
    && "cpu" in r && r["cpu"].Int? && r["cpu"].n == cpu
    && HasUnsigned(r, "tsc", sw.time) && HasNumber(r, "type", sw.kind)
    && HasNumber(r, "prev_pid", sw.prevPid) && HasNumber(r, "next_pid", sw.nextPid)
    && HasUnsigned(r, "prev_state", sw.prevState) && HasUnsigned(r, "next_state", sw.nextState)
    && HasText(r, "prev_comm", sw.prevComm) && HasText(r, "next_comm", sw.nextComm)
    && HasNumber(r, "in_which_ctx", sw.ctx)
  }

  /** What a record had before under a key that no field has stays. */
  lemma {:induction false} OverKeeps(r: Record, fs: seq<Field>, key: string)
    requires forall i :: 0 <= i < |fs| ==> fs[i].key != key
    ensures key in Over(r, fs) <==> key in r
    ensures key in r ==> Over(r, fs)[key] == r[key]
  {
    if fs != [] { OverKeeps(r, fs[..|fs| - 1], key); }
  }

  lemma KeysDiffer(sw: Switch)
    ensures forall j, k :: 0 <= j < k < |FieldsOf(sw)| ==> FieldsOf(sw)[j].key != FieldsOf(sw)[k].key
    ensures forall j :: 0 <= j < |FieldsOf(sw)| ==> FieldsOf(sw)[j].key != "cpu"
  {
    SwitchKeysDiffer();
    assert forall j :: 0 <= j < |FieldsOf(sw)| ==> FieldsOf(sw)[j].key == SWITCH_KEYS[j];
  }

  const SWITCH_KEYS: seq<string> :=
    ["type", "tsc", "prev_comm", "next_comm", "prev_pid", "next_pid", "prev_state", "next_state", "in_which_ctx"]

  lemma SwitchKeysDiffer()
    ensures forall j, k :: 0 <= j < k < |SWITCH_KEYS| ==> SWITCH_KEYS[j] != SWITCH_KEYS[k]
    ensures forall j :: 0 <= j < |SWITCH_KEYS| ==> SWITCH_KEYS[j] != "cpu"
  {
    assert "prev_comm"[0] == 'p' && "next_comm"[0] == 'n';
    assert "prev_pid"[0] == 'p' && "next_pid"[0] == 'n';
    assert "prev_state"[0] == 'p' && "next_state"[0] == 'n';
    assert "tsc"[0] == 't' && "cpu"[0] == 'c';
  }

  lemma KeysArePlain()
    ensures Plain("type") && Plain("tsc") && Plain("prev_comm") && Plain("next_comm") && Plain("prev_pid")
    ensures Plain("next_pid") && Plain("prev_state") && Plain("next_state") && Plain("in_which_ctx")
  {
  }

  lemma PlainMore(a: seq<Field>, b: seq<Field>)
    requires PlainFields(a) && PlainFields(b)
    ensures PlainFields(a + b)
  {
  }

  lemma NumbersArePlain(spaces: nat, key: string, n: int, key': string, n': int)
    requires Plain(key) && Plain(key') && key != "" && key' != ""
    ensures PlainFields([Field(spaces, key, Signed(n)), Field(1, key', Signed(n'))])
    ensures 0 <= n' ==> PlainFields([Field(spaces, key, Signed(n)), Field(1, key', Decimal(n'))])
    ensures 0 <= n && 0 <= n' ==> PlainFields([Field(spaces, key, Decimal(n)), Field(1, key', Decimal(n'))])
  {
    SignedIsRead(n);
    SignedIsRead(n');
  }

  lemma FieldsArePlain(sw: Switch)
    requires Plain(sw.prevComm) && Plain(sw.nextComm)
    ensures PlainFields(FieldsOf(sw))
  {
    KeysArePlain();
    NumbersArePlain(1, "type", sw.kind, "tsc", sw.time);
    NumbersArePlain(PidSpaces(sw), "prev_pid", sw.prevPid, "next_pid", sw.nextPid);
    NumbersArePlain(1, "prev_state", LongOf(sw.prevState), "next_state", LongOf(sw.nextState));
    SignedIsRead(sw.ctx);
    var a := [Field(1, "type", Signed(sw.kind)), Field(1, "tsc", Decimal(sw.time))];
    var b := [Field(1, "prev_comm", sw.prevComm), Field(1, "next_comm", sw.nextComm)];
    var c := [Field(PidSpaces(sw), "prev_pid", Signed(sw.prevPid)), Field(1, "next_pid", Signed(sw.nextPid))];
    var d := [Field(1, "prev_state", Signed(LongOf(sw.prevState))), Field(1, "next_state", Signed(LongOf(sw.nextState)))];
    var e := [Field(1, "in_which_ctx", Signed(sw.ctx))];
    PlainMore(a, b);
    PlainMore(a + b, c);
    PlainMore(a + b + c, d);
    PlainMore(a + b + c + d, e);
    assert FieldsOf(sw) == a + b + c + d + e;
  }

  lemma FieldFound(r: Record, sw: Switch, i: nat)
    requires i < |FieldsOf(sw)|
    ensures HasText(Over(r, FieldsOf(sw)), FieldsOf(sw)[i].key, FieldsOf(sw)[i].value)
  {
    KeysDiffer(sw);
    EveryField(r, FieldsOf(sw), i);
  }

  lemma NumberFound(r: Record, sw: Switch, i: nat, n: int)
    requires i < |FieldsOf(sw)| && (FieldsOf(sw)[i].value == Signed(n) || (0 <= n && FieldsOf(sw)[i].value == Decimal(n)))
    ensures HasNumber(Over(r, FieldsOf(sw)), FieldsOf(sw)[i].key, n)
  {
    FieldFound(r, sw, i);
    SignedIsRead(n);
  }

  lemma UnsignedFound(r: Record, sw: Switch, i: nat, n: u64)
    requires i < |FieldsOf(sw)| && FieldsOf(sw)[i].value == Decimal(n)
    ensures HasUnsigned(Over(r, FieldsOf(sw)), FieldsOf(sw)[i].key, n)
  {
    FieldFound(r, sw, i);
    DecimalIsDigits(n);
  }

  /** A state is read back exactly if it is no negative long. */
  lemma StateFound(r: Record, sw: Switch, i: nat, n: u64)
    requires i < |FieldsOf(sw)| && FieldsOf(sw)[i].value == Signed(LongOf(n))
    ensures HasUnsigned(Over(r, FieldsOf(sw)), FieldsOf(sw)[i].key, n) <==> n < LONG_LIMIT
  {
    FieldFound(r, sw, i);
    if n < LONG_LIMIT {
      DecimalIsDigits(n);
    } else {
      assert !IsDigit(Signed(LongOf(n))[0]);
    }
  }

  lemma OverLoads(r: Record, sw: Switch, cpu: nat)
    requires "cpu" in r && r["cpu"] == Int(cpu)
    ensures LoadsAs(Over(r, FieldsOf(sw)), cpu, sw) <==> sw.prevState < LONG_LIMIT && sw.nextState < LONG_LIMIT
  {
    KeysDiffer(sw);
    OverKeeps(r, FieldsOf(sw), "cpu");
    NumberFound(r, sw, 0, sw.kind);
    UnsignedFound(r, sw, 1, sw.time);
    FieldFound(r, sw, 2);
    FieldFound(r, sw, 3);
    NumberFound(r, sw, 4, sw.prevPid);
    NumberFound(r, sw, 5, sw.nextPid);
    StateFound(r, sw, 6, sw.prevState);
    StateFound(r, sw, 7, sw.nextState);
    NumberFound(r, sw, 8, sw.ctx);
  }

  /** A scheduling event printed by its probe, an exit included, reaches the analyzer's loader with its CPU and every field
      intact, as long as the two thread names hold no white space, comma or equal sign, exactly if neither task state is
      negative: states are printed signed and loaded unsigned. */
  lemma SwitchRoundTrip(l: Line, sw: Switch)
    requires l.fields == FieldsOf(sw) && Plain(sw.prevComm) && Plain(sw.nextComm)
    requires l.(fields := [Field(1, "type", "0")]).Valid()
    ensures Encode(l.Text()).Some?
    ensures LoadsAs(Encode(l.Text()).value, ValueOf(l.cpu), sw) <==> sw.prevState < LONG_LIMIT && sw.nextState < LONG_LIMIT
  {
    FieldsArePlain(sw);
    RoundTrip(l);
    OverLoads(Prefix(l.task, l.pid, ValueOf(l.cpu), l.sched, l.timestamp), sw, ValueOf(l.cpu));
  }

  // ---- the softirq event ----

  /** The fields of __do_softirq_ret. */
  function SoftFields(comm: string, s: Soft): seq<Field> {
    [Field(1, "prev_comm", comm), Field(1, "begin_time", Decimal(s.stime)), Field(1, "end_time", Decimal(s.etime))]
  }

  /** The analyzer's softirq loader, tag by tag. */
  predicate LoadsAsSoft(r: Record, s: Soft) {
    && "cpu" in r && r["cpu"].Int? && r["cpu"].n == s.cpu
    && HasUnsigned(r, "begin_time", s.stime) && HasUnsigned(r, "end_time", s.etime)
  }

  lemma SoftFieldsArePlain(comm: string, s: Soft)
    requires Plain(comm)
    ensures PlainFields(SoftFields(comm, s))
    ensures forall j, k :: 0 <= j < k < 3 ==> SoftFields(comm, s)[j].key != SoftFields(comm, s)[k].key
    ensures forall j :: 0 <= j < 3 ==> SoftFields(comm, s)[j].key != "cpu"
  {
    SignedIsRead(s.stime);
    SignedIsRead(s.etime);
    SoftKeys();
  }

  lemma SoftKeys()
    ensures Plain("prev_comm") && Plain("begin_time") && Plain("end_time")
    ensures "prev_comm" != "cpu" && "begin_time" != "cpu" && "end_time" != "cpu"
    ensures "prev_comm" != "begin_time" && "prev_comm" != "end_time" && "begin_time" != "end_time"
  {
    assert "prev_comm"[0] == 'p' && "begin_time"[0] == 'b' && "end_time"[0] == 'e' && "cpu"[0] == 'c';
  }

  /** A softirq printed by its probe reaches the analyzer's loader with its CPU, begin and end. */
  lemma SoftRoundTrip(l: Line, comm: string, s: Soft)
    requires l.fields == SoftFields(comm, s) && Plain(comm)
    requires l.(fields := [Field(1, "type", "0")]).Valid() && ValueOf(l.cpu) == s.cpu
    ensures Encode(l.Text()).Some? && LoadsAsSoft(Encode(l.Text()).value, s)
  {
    SoftFieldsArePlain(comm, s);
    RoundTrip(l);
    var p := Prefix(l.task, l.pid, ValueOf(l.cpu), l.sched, l.timestamp);
    OverKeeps(p, l.fields, "cpu");
    EveryField(p, l.fields, 1);
    EveryField(p, l.fields, 2);
    DecimalIsDigits(s.stime);
    DecimalIsDigits(s.etime);
  }

  const PREFIX_KEYS: set<string> := {"comm", "pid", "cpu", "irqs_off", "need_resched", "ctx", "preempt_depth", "timestamp"}

  /** The part of the line before the event, under keys that no field of the event takes over. */
  lemma PrefixRoundTrip(l: Line)
    requires l.Valid()
    requires forall i :: 0 <= i < |l.fields| ==> l.fields[i].key !in PREFIX_KEYS
    ensures Encode(l.Text()).Some?
    ensures var r := Encode(l.Text()).value;
      && HasText(r, "comm", l.task) && HasText(r, "pid", l.pid) && "cpu" in r && r["cpu"] == Int(ValueOf(l.cpu))
      && HasText(r, "irqs_off", [l.sched[0]]) && HasText(r, "need_resched", [l.sched[1]])
      && HasText(r, "ctx", [l.sched[2]]) && HasText(r, "preempt_depth", [l.sched[3]])
      && HasText(r, "timestamp", l.timestamp)
  {
    RoundTrip(l);
    var p := Prefix(l.task, l.pid, ValueOf(l.cpu), l.sched, l.timestamp);
    OverKeeps(p, l.fields, "comm");
    OverKeeps(p, l.fields, "pid");
    OverKeeps(p, l.fields, "cpu");
    OverKeeps(p, l.fields, "irqs_off");
    OverKeeps(p, l.fields, "need_resched");
    OverKeeps(p, l.fields, "ctx");
    OverKeeps(p, l.fields, "preempt_depth");
    OverKeeps(p, l.fields, "timestamp");
    PrefixHas(l.task, l.pid, ValueOf(l.cpu), l.sched, l.timestamp);
  }

  lemma PrefixHas(task: string, pid: string, cpu: nat, sched: string, timestamp: string)
    requires |sched| >= 4
    ensures var r := Prefix(task, pid, cpu, sched, timestamp);
      && HasText(r, "comm", task) && HasText(r, "pid", pid) && "cpu" in r && r["cpu"] == Int(cpu)
      && HasText(r, "irqs_off", [sched[0]]) && HasText(r, "need_resched", [sched[1]])
      && HasText(r, "ctx", [sched[2]]) && HasText(r, "preempt_depth", [sched[3]])
      && HasText(r, "timestamp", timestamp)
  {
    assert "comm"[0] == 'c' && "comm"[1] == 'o' && "cpu"[1] == 'p' && "ctx"[1] == 't';
    assert "pid"[1] == 'i' && "preempt_depth"[1] == 'r';
    assert "irqs_off"[0] == 'i' && "need_resched"[0] == 'n' && "timestamp"[0] == 't' && "pid"[0] == 'p' && "ctx"[0] == 'c';
    assert "cpu"[0] == 'c' && "preempt_depth"[0] == 'p';
    assert sched[..1] == [sched[0]] && sched[1..2] == [sched[1]] && sched[2..3] == [sched[2]] && sched[3..4] == [sched[3]];
  }
}
