/** The pid filter of the transmit statistics: its text form, and the probes it switches. */
module PidFilter {
  import opened Events
  import opened Text

  /** kstrtoul in base 10: an optional plus, at least one digit, an optional final newline; the value fits a long. */
  function ParseULong(s: string): Option<u64> {
    var t := if s != [] && s[0] == '+' then s[1..] else s;
    var u := if t != [] && t[|t| - 1] == '\n' then t[..|t| - 1] else t;
    if u != [] && AllDigits(u) && ValueOf(u) < U64_LIMIT then Some(ValueOf(u)) else None
  }

  /** A text is read as a number exactly if it is a non-empty run of digits that stays below 2^64, with at most one plus in
      front and at most one newline behind. */
  lemma ParseULongIs(s: string, n: u64)
    ensures ParseULong(s) == Some(n) <==>
      exists ds :: ds != "" && AllDigits(ds) && ValueOf(ds) == n && s in {ds, "+" + ds, ds + "\n", "+" + ds + "\n"}
  {
    var t := if s != [] && s[0] == '+' then s[1..] else s;
    var u := if t != [] && t[|t| - 1] == '\n' then t[..|t| - 1] else t;
    assert t == u || t == u + "\n";
    assert s == t || s == "+" + t;
    assert "+" + (u + "\n") == "+" + u + "\n";
    if ds :| ds != "" && AllDigits(ds) && ValueOf(ds) == n && s in {ds, "+" + ds, ds + "\n", "+" + ds + "\n"} {
      assert IsDigit(ds[0]) && IsDigit(ds[|ds| - 1]);
      assert u == ds;
    }
  }

  lemma DecimalParses(n: u64)
    ensures ParseULong(Decimal(n)) == Some(n)
  {
    DecimalIsDigits(n);
    var s := Decimal(n);
    assert IsDigit(s[0]) && IsDigit(s[|s| - 1]);
  }

  // ---- reading the filter ----

  /** The text of the pids, each followed by a comma. */
  function Listed(pids: seq<nat>): string {
    if pids == [] then "" else Listed(pids[..|pids| - 1]) + Decimal(pids[|pids| - 1]) + ","
  }

  predicate Rising(pids: seq<nat>) {
    forall i, j :: 0 <= i < j < |pids| ==> pids[i] < pids[j]
  }

  /** The longest initial part of the list whose text stays within cap characters. */
  function Fitting(pids: seq<nat>, cap: nat): seq<nat> {
    if pids == [] || |Listed(pids)| <= cap then pids else Fitting(pids[..|pids| - 1], cap)
  }

  lemma {:induction false} ListedGrows(pids: seq<nat>, i: nat)
    requires i <= |pids|
    ensures |Listed(pids[..i])| <= |Listed(pids)|
    decreases |pids|
  {
    if i == |pids| {
      assert pids[..i] == pids;
    } else {
      ListedGrows(pids[..|pids| - 1], i);
      assert pids[..|pids| - 1][..i] == pids[..i];
    }
  }

  /** Fitting is an initial part that fits, and no longer one does. */
  lemma {:induction false} FittingIsLongest(pids: seq<nat>, cap: nat)
    ensures |Fitting(pids, cap)| <= |pids| && Fitting(pids, cap) == pids[..|Fitting(pids, cap)|]
    ensures |Listed(Fitting(pids, cap))| <= cap && (|Listed(pids)| > cap ==> |Fitting(pids, cap)| < |pids|)
    ensures forall i :: |Fitting(pids, cap)| < i <= |pids| ==> |Listed(pids[..i])| > cap
    decreases |pids|
  {
    if pids == [] || |Listed(pids)| <= cap {
      assert pids[..|pids|] == pids;
    } else {
      var init := pids[..|pids| - 1];
      FittingIsLongest(init, cap);
      forall i | |Fitting(pids, cap)| < i <= |pids| ensures |Listed(pids[..i])| > cap {
        if i == |pids| {
          assert pids[..i] == pids;
        } else {
          assert init[..i] == pids[..i];
        }
      }
    }
  }

  lemma {:induction false} FittingNext(pids: seq<nat>, cap: nat, i: nat)
    requires i < |pids|
    ensures Fitting(pids[..i + 1], cap) ==
      if |Listed(pids[..i + 1])| <= cap then pids[..i + 1] else Fitting(pids[..i], cap)
  {
    assert pids[..i + 1][..i] == pids[..i];
  }

  /** tx_stats_filter_read: what is printed for the set bits, given in ascending order. */
  function Printed(pids: seq<nat>, cap: nat): string {
    if pids == [] then "none\n"
    else if Listed(Fitting(pids, cap)) == "" then ""
    else Listed(Fitting(pids, cap))[..|Listed(Fitting(pids, cap))| - 1] + "\n"
  }

  /** What the page holds after the tokens of the first i pids. */
  ghost predicate Shown(pids: seq<nat>, i: nat, cap: nat, text: string, full: bool) {
    && i <= |pids| && text == Listed(Fitting(pids[..i], cap))
    && (full <==> Fitting(pids[..i], cap) != pids[..i])
  }

  lemma ShownNext(pids: seq<nat>, i: nat, cap: nat, text: string, full: bool)
    requires i < |pids| && Shown(pids, i, cap, text, full)
    ensures var token := Decimal(pids[i]) + ","; var stop := full || |text| + |token| > cap;
      Shown(pids, i + 1, cap, if stop then text else text + token, stop)
  {
    var before, next := pids[..i], pids[..i + 1];
    var q := Fitting(before, cap);
    FittingNext(pids, cap, i);
    FittingIsLongest(before, cap);
    assert next[..i] == before && next[i] == pids[i];
    assert Listed(next) == Listed(before) + Decimal(pids[i]) + ",";
    if full {
      ListedGrows(next, |q| + 1);
      assert next[..|q| + 1] == before[..|q| + 1];
    }
  }

  method FilterRead(pids: seq<nat>, cap: nat) returns (text: string)
    requires |"none\n"| <= cap && (pids != [] ==> |Decimal(pids[0])| + 1 <= cap)
    ensures text == Printed(pids, cap)
  {
    var s := new TraceSeq(cap);
    for i := 0 to |pids|
      invariant s.cap == cap && Shown(pids, i, cap, s.text, s.full)
      invariant if i == 0 then s.text == "" && !s.full else s.text != ""
    {
      ShownNext(pids, i, cap, s.text, s.full);
      s.Puts(Decimal(pids[i]) + ",");
    }
    assert pids[..|pids|] == pids;
    if |pids| == 0 {
      s.Puts("none\n");
    } else {
      s.Newline();
    }
    text := s.text;
  }

  // ---- writing the filter ----

  const UINT_LIMIT: int := 0x1_0000_0000

  /** The bit a number sets: bitmap_set takes a 32-bit index. */
  function BitOf(pid: nat): nat { pid % UINT_LIMIT }

  /** One token: an empty one is skipped, a number is added, anything else is refused. */
  function WithToken(token: string, f: set<nat>): Option<set<nat>> {
    if token == "" then Some(f)
    else if ParseULong(token).None? then None
    else Some(f + {BitOf(ParseULong(token).value)})
  }

  /** The filter after the tokens; None if one of them is refused. */
  function Added(tokens: seq<string>, f: set<nat>): Option<set<nat>> {
    if tokens == [] then Some(f) else
    var before := Added(tokens[..|tokens| - 1], f);
    if before.None? then None else WithToken(tokens[|tokens| - 1], before.value)
  }

  lemma AddedNext(tokens: seq<string>, i: nat, f: set<nat>)
    requires i < |tokens| && Added(tokens[..i], f).Some?
    ensures Added(tokens[..i + 1], f) == WithToken(tokens[i], Added(tokens[..i], f).value)
  {
    assert tokens[..i + 1][..i] == tokens[..i];
  }

  lemma {:induction false} AddedNone(tokens: seq<string>, i: nat, f: set<nat>)
    requires i <= |tokens| && Added(tokens[..i], f).None?
    ensures Added(tokens, f).None?
    decreases |tokens|
  {
    if i == |tokens| {
      assert tokens[..i] == tokens;
    } else {
      assert tokens[..|tokens| - 1][..i] == tokens[..i];
      AddedNone(tokens[..|tokens| - 1], i, f);
    }
  }

  /** Some number that is reached is not below the limit. */
  predicate Overruns(tokens: seq<string>, f: set<nat>, limit: nat) {
    tokens != [] &&
    var init, t := tokens[..|tokens| - 1], tokens[|tokens| - 1];
    Overruns(init, f, limit) || (Added(init, f).Some? && TooLarge(t, limit))
  }

  predicate TooLarge(token: string, limit: nat) {
    token != "" && ParseULong(token).Some? && BitOf(ParseULong(token).value) >= limit
  }

  /** Once a number overran it stays so; once a token was refused no later one is reached. */
  lemma {:induction false} OverrunsLater(tokens: seq<string>, f: set<nat>, limit: nat, i: nat)
    requires i <= |tokens|
    ensures Overruns(tokens[..i], f, limit) ==> Overruns(tokens, f, limit)
    ensures Added(tokens[..i], f).None? && !Overruns(tokens[..i], f, limit) ==> !Overruns(tokens, f, limit)
    decreases |tokens|
  {
    if i == |tokens| {
      assert tokens[..i] == tokens;
    } else {
      assert tokens[..|tokens| - 1][..i] == tokens[..i];
      OverrunsLater(tokens[..|tokens| - 1], f, limit, i);
      if Added(tokens[..i], f).None? { AddedNone(tokens[..|tokens| - 1], i, f); }
    }
  }

  /** Token i is a number whose low 32 bits are not below the limit, and no token before it is refused. */
  ghost predicate OverrunsAt(tokens: seq<string>, i: int, limit: nat) {
    && 0 <= i < |tokens| && ParseULong(tokens[i]).Some? && ParseULong(tokens[i]).value % 0x1_0000_0000 >= limit
    && forall j :: 0 <= j < i ==> tokens[j] == "" || ParseULong(tokens[j]).Some?
  }

  lemma LastOverruns(tokens: seq<string>, f: set<nat>, limit: nat)
    requires tokens != []
    ensures var init, n := tokens[..|tokens| - 1], |tokens| - 1;
      OverrunsAt(tokens, n, limit) <==> Added(init, f).Some? && TooLarge(tokens[n], limit)
  {
    var init := tokens[..|tokens| - 1];
    AddedFails(init, f);
    assert forall j :: 0 <= j < |init| ==> init[j] == tokens[j];
    assert ParseULong("").None?;
  }

  /** A write leaves the bitmap exactly if it reaches a number that is too large. */
  lemma {:induction false} OverrunsIff(tokens: seq<string>, f: set<nat>, limit: nat)
    ensures Overruns(tokens, f, limit) <==> exists i :: OverrunsAt(tokens, i, limit)
  {
    if tokens != [] {
      var init, n := tokens[..|tokens| - 1], |tokens| - 1;
      OverrunsIff(init, f, limit);
      LastOverruns(tokens, f, limit);
      forall i | i != n ensures OverrunsAt(tokens, i, limit) <==> OverrunsAt(init, i, limit) {
        assert forall j :: 0 <= j < |init| ==> init[j] == tokens[j];
      }
    }
  }

  /** Where the loop of a filter write stands: i tokens are in the filter, and s, unless it ran out, holds the others. */
  ghost predicate OnTrack(tokens: seq<string>, i: nat, s: string, more: bool, f: set<nat>, limit: nat, filter: set<nat>) {
    Ahead(tokens, i, s, more) && Added(tokens[..i], f) == Some(filter) && !Overruns(tokens[..i], f, limit)
  }

  lemma AllAhead(s: string, f: set<nat>, limit: nat)
    ensures OnTrack(SplitOn(',', s), 0, s, true, f, limit, f)
  {
    AllTokensAhead(s);
    assert SplitOn(',', s)[..0] == [];
  }

  lemma AllDone(tokens: seq<string>, i: nat, s: string, f: set<nat>, limit: nat, filter: set<nat>)
    requires OnTrack(tokens, i, s, false, f, limit, filter)
    ensures Added(tokens, f) == Some(filter) && !Overruns(tokens, f, limit)
  {
    assert tokens[..i] == tokens;
  }

  /** One turn of the loop: the part before the next comma is the next token. */
  lemma TokenStep(tokens: seq<string>, i: nat, s: string, f: set<nat>, limit: nat, filter: set<nat>)
    requires OnTrack(tokens, i, s, true, f, limit, filter)
    ensures var n := ToChar(s, ','); var r := WithToken(s[..n], filter);
      if TooLarge(s[..n], limit) then Overruns(tokens, f, limit)
      else if r.None? then Added(tokens, f).None? && !Overruns(tokens, f, limit)
      else OnTrack(tokens, i + 1, if n < |s| then s[n + 1..] else "", n < |s|, f, limit, r.value)
  {
    NextToken(tokens, i, s);
    AddedNext(tokens, i, f);
    assert tokens[..i + 1][..i] == tokens[..i];
    OverrunsLater(tokens, f, limit, i + 1);
    if WithToken(tokens[i], filter).None? {
      AddedNone(tokens, i + 1, f);
    }
  }

  /** The transmit statistics: the filter bitmap, the enabled flag, and whether the five send probes are on. */
  class TxStats {
    const limit: nat
    var filter: set<nat>
    var enabled: bool
    var probes: bool

    function Value(): Tx
      reads this
    {
      Tx(filter, enabled, probes)
    }

    constructor (limit: nat)
      ensures this.limit == limit && Value() == Tx({}, false, false)
    {
      this.limit, filter, enabled, probes := limit, {}, false, false;
    }

    method EnableWrite(on: bool)
      modifies this
      ensures Value() == Apply(old(Value()), Enable(on))
      ensures enabled == on && probes == on && filter == if on then old(filter) else {}
    {
      enabled := on;
      if on {
        probes := true;
      } else {
        probes := false;
        filter := {};
      }
    }

    /** A token that is not a number clears the whole filter and leaves the probes off. A number is used as a bit index,
        as far as 32 bits hold it, without being compared with the size of the bitmap. */
    method FilterWrite(text: string) returns (r: WriteResult)
      modifies this
      ensures r.Overrun? <==> Overruns(SplitOn(',', Strip(text)), old(filter), limit)
      ensures !r.Overrun? ==> Value() == Apply(old(Value()), WriteFilter(text))
      ensures !r.Overrun? ==> enabled == old(enabled) && (r.Refused? <==> BadText(text))
      ensures r.Written? ==> filter == old(filter) + Numbers(SplitOn(',', Strip(text))) && probes == enabled
      ensures r.Refused? ==> filter == {} && !probes
    {
      var s, more := Strip(text), true;
      probes := false;
      ghost var tokens, i, f := SplitOn(',', s), 0, filter;
      AllAhead(s, f, limit);
      while more
        invariant OnTrack(tokens, i, s, more, f, limit, filter)
        invariant enabled == old(enabled) && !probes
        decreases |tokens| - i
      {
        var n := ToChar(s, ',');
        TokenStep(tokens, i, s, f, limit, filter);
        r := AddToken(s[..n]);
        if r.Overrun? {
          return;
        }
        if r.Refused? {
          filter := {};
          AddedFails(tokens, f);
          return;
        }
        more := n < |s|;
        s := if n < |s| then s[n + 1..] else "";
        i := i + 1;
      }
      AllDone(tokens, i, s, f, limit, filter);
      AddedFails(tokens, f);
      AddedIsUnion(tokens, f);
      if enabled {
        probes := true;
      }
      r := Written;
    }

    method AddToken(token: string) returns (r: WriteResult)
      modifies `filter
      ensures r.Overrun? <==> TooLarge(token, limit)
      ensures !r.Overrun? ==> var w := WithToken(token, old(filter));
        (r.Written? <==> w.Some?) && (r.Written? ==> filter == w.value)
    {
      if token == "" {
        return Written;
      }
      var pid := ParseULong(token);
      if pid.None? {
        return Refused;
      }
      var bit := BitOf(pid.value);
      if bit >= limit {
        return Overrun;
      }
      filter := filter + {bit};
      r := Written;
    }

    /** Reading the output switches the probes off for the time of the reading. */
    method OutputRead()
      modifies this
      ensures Value() == Apply(old(Value()), ReadOutput)
    {
      probes := false;
      if enabled {
        probes := true;
      }
    }
  }

  // ---- sequences of operations ----

  datatype Tx = Tx(filter: set<nat>, enabled: bool, probes: bool)

  datatype Op = Enable(on: bool) | WriteFilter(text: string) | ReadFilter | ReadOutput

  function Apply(x: Tx, op: Op): Tx {
    match op
    case Enable(on) => if on then x.(enabled := true, probes := true) else Tx({}, false, false)
    case WriteFilter(text) =>
      var r := Added(SplitOn(',', Strip(text)), x.filter);
      if r.None? then Tx({}, x.enabled, false) else Tx(r.value, x.enabled, x.enabled)
    case ReadFilter => x
    case ReadOutput => x.(probes := x.enabled)
  }

  function ApplyAll(x: Tx, ops: seq<Op>): Tx {
    if ops == [] then x else Apply(ApplyAll(x, ops[..|ops| - 1]), ops[|ops| - 1])
  }

  /** Whether a filter write of this text fails does not depend on the filter. */
  predicate BadText(text: string) {
    exists t :: t in SplitOn(',', Strip(text)) && t != "" && ParseULong(t).None?
  }

  lemma {:induction false} AddedFails(tokens: seq<string>, f: set<nat>)
    ensures Added(tokens, f).None? <==> exists t :: t in tokens && t != "" && ParseULong(t).None?
  {
    if tokens != [] {
      AddedFails(tokens[..|tokens| - 1], f);
      assert forall t :: t in tokens <==> t in tokens[..|tokens| - 1] || t == tokens[|tokens| - 1];
    }
  }

  /** The bits of the numbers among the tokens. */
  function Numbers(tokens: seq<string>): set<nat> {
    set t | t in tokens && t != "" && ParseULong(t).Some? :: BitOf(ParseULong(t).value)
  }

  /** A write that succeeds gives the union of the old filter and the bits of the numbers in the text. */
  lemma {:induction false} AddedIsUnion(tokens: seq<string>, f: set<nat>)
    requires Added(tokens, f).Some?
    ensures Added(tokens, f).value == f + Numbers(tokens)
  {
    if tokens != [] {
      var init, t := tokens[..|tokens| - 1], tokens[|tokens| - 1];
      AddedIsUnion(init, f);
      assert forall u :: u in tokens <==> u in init || u == t;
      assert Numbers(tokens) == Numbers(init) + if t == "" then {} else {BitOf(ParseULong(t).value)};
    }
  }

  /** The last operation that could switch the probes was a filter write that failed. */
  predicate LastFailed(ops: seq<Op>) {
    ops != [] &&
    match ops[|ops| - 1]
    case Enable(_) => false
    case WriteFilter(text) => BadText(text)
    case ReadFilter => LastFailed(ops[..|ops| - 1])
    case ReadOutput => false
  }

  /** Over all sequences of operations from a fresh module: the probes are on exactly if the flag is set, except after a
      failed filter write, until the next enable, successful filter write or output read. */
  lemma {:induction false} ProbesFollowFlag(ops: seq<Op>)
    ensures var x := ApplyAll(Tx({}, false, false), ops);
      x.probes <==> x.enabled && !LastFailed(ops)
  {
    if ops != [] {
      ProbesFollowFlag(ops[..|ops| - 1]);
      match ops[|ops| - 1]
      case WriteFilter(text) =>
        AddedFails(SplitOn(',', Strip(text)), ApplyAll(Tx({}, false, false), ops[..|ops| - 1]).filter);
      case _ =>
    }
  }

  /** Operation i is the last write to the flag. */
  ghost predicate LastEnable(ops: seq<Op>, i: int) {
    0 <= i < |ops| && ops[i].Enable? && forall j :: i < j < |ops| ==> !ops[j].Enable?
  }

  /** Over all sequences of operations from a fresh module, the flag is what the last write to it said, and off before one. */
  lemma {:induction false} FlagIsLastEnable(ops: seq<Op>)
    ensures ApplyAll(Tx({}, false, false), ops).enabled <==> exists i :: LastEnable(ops, i) && ops[i].on
  {
    if ops != [] {
      var init, n := ops[..|ops| - 1], |ops| - 1;
      FlagIsLastEnable(init);
      if ops[n].Enable? {
        assert LastEnable(ops, n);
        assert forall i :: LastEnable(ops, i) ==> i == n;
      } else {
        assert forall i :: LastEnable(ops, i) <==> LastEnable(init, i);
      }
    }
  }

  /** The operation empties the filter: it disables, or writes a text with a token that is no number. */
  predicate Clears(op: Op) { (op.Enable? && !op.on) || (op.WriteFilter? && BadText(op.text)) }

  /** The operation puts bit n in: it writes a text of numbers, one of which has these low 32 bits. */
  predicate PutsBit(op: Op, n: nat) {
    && op.WriteFilter? && !BadText(op.text)
    && exists t :: t in SplitOn(',', Strip(op.text)) && ParseULong(t).Some? && ParseULong(t).value % 0x1_0000_0000 == n
  }

  ghost predicate KeptBit(ops: seq<Op>, i: int, n: nat) {
    0 <= i < |ops| && PutsBit(ops[i], n) && forall j :: i < j < |ops| ==> !Clears(ops[j])
  }

  lemma StepBit(x: Tx, op: Op, n: nat)
    ensures n in Apply(x, op).filter <==> !Clears(op) && (n in x.filter || PutsBit(op, n))
  {
    if op.WriteFilter? {
      var tokens := SplitOn(',', Strip(op.text));
      AddedFails(tokens, x.filter);
      if !BadText(op.text) {
        AddedIsUnion(tokens, x.filter);
        assert ParseULong("").None?;
        assert n in Numbers(tokens) <==> PutsBit(op, n);
      }
    }
  }

  lemma KeptNext(ops: seq<Op>, i: int, n: nat)
    requires ops != []
    ensures var m := |ops| - 1;
      KeptBit(ops, i, n) <==> if i == m then PutsBit(ops[m], n) else KeptBit(ops[..m], i, n) && !Clears(ops[m])
  {
    assert forall j :: 0 <= j < |ops| - 1 ==> ops[..|ops| - 1][j] == ops[j];
  }

  /** Over all sequences of operations, a bit is in the filter exactly if some write put it in and nothing emptied the filter
      since: no disabling, and no write that was refused. */
  lemma {:induction false} FilterIsWhatWasPut(ops: seq<Op>, n: nat)
    ensures n in ApplyAll(Tx({}, false, false), ops).filter <==> exists i :: KeptBit(ops, i, n)
  {
    if ops != [] {
      var m := |ops| - 1;
      FilterIsWhatWasPut(ops[..m], n);
      StepBit(ApplyAll(Tx({}, false, false), ops[..m]), ops[m], n);
      forall i ensures KeptBit(ops, i, n) <==> if i == m then PutsBit(ops[m], n) else KeptBit(ops[..m], i, n) && !Clears(ops[m]) {
        KeptNext(ops, i, n);
      }
      if n in ApplyAll(Tx({}, false, false), ops).filter && n !in ApplyAll(Tx({}, false, false), ops[..m]).filter {
        assert KeptBit(ops, m, n);
      }
    }
  }

  // ---- round trip ----

  function Tokens(pids: seq<nat>): seq<string> {
    if pids == [] then [] else Tokens(pids[..|pids| - 1]) + [Decimal(pids[|pids| - 1])]
  }

  function SetOf(pids: seq<nat>): set<nat> {
    set p | p in pids
  }

  /** The printed text without its last character splits back into the numbers. */
  lemma {:induction false} ListedSplits(pids: seq<nat>)
    requires pids != []
    ensures var s := Listed(pids);
      |s| > 1 && IsDigit(s[0]) && IsDigit(s[|s| - 2]) && SplitOn(',', s[..|s| - 1]) == Tokens(pids)
  {
    var init, d := pids[..|pids| - 1], Decimal(pids[|pids| - 1]);
    DecimalIsDigits(pids[|pids| - 1]);
    var s := Listed(pids);
    assert s[..|s| - 1] == Listed(init) + d;
    if init == [] {
      assert Listed(init) + d == d;
      NoneToSplit(',', d);
    } else {
      ListedSplits(init);
      var l := Listed(init);
      assert l == l[..|l| - 1] + "," by { assert l[|l| - 1] == ','; }
      assert l + d == l[..|l| - 1] + "," + d;
      SplitAppends(',', l[..|l| - 1], d);
    }
  }

  lemma SetGrows(pids: seq<nat>)
    requires pids != []
    ensures SetOf(pids) == SetOf(pids[..|pids| - 1]) + {pids[|pids| - 1]}
  {
  }

  lemma DecimalAdds(p: nat, f: set<nat>)
    requires p < UINT_LIMIT
    ensures WithToken(Decimal(p), f) == Some(f + {p})
  {
    OwnBit(p);
    DecimalIsDigits(p);
    DecimalParses(p);
  }

  lemma OwnBit(p: nat)
    requires p < UINT_LIMIT
    ensures BitOf(p) == p
  {
  }

  lemma {:induction false} TokensAdd(pids: seq<nat>, f: set<nat>)
    requires forall i :: 0 <= i < |pids| ==> pids[i] < UINT_LIMIT
    ensures Added(Tokens(pids), f) == Some(f + SetOf(pids))
  {
    if pids == [] {
      assert f + SetOf(pids) == f;
    } else {
      var init, p := pids[..|pids| - 1], pids[|pids| - 1];
      TokensAdd(init, f);
      DecimalAdds(p, f + SetOf(init));
      assert Tokens(pids)[..|Tokens(pids)| - 1] == Tokens(init);
      SetGrows(pids);
      assert f + SetOf(init) + {p} == f + SetOf(pids);
    }
  }

  lemma FirstFits(pids: seq<nat>, cap: nat)
    requires pids != [] && |Decimal(pids[0])| + 1 <= cap
    ensures Fitting(pids, cap) != []
  {
    FittingIsLongest(pids, cap);
    assert pids[..1][..0] == [];
    assert Listed(pids[..1]) == Decimal(pids[0]) + ",";
  }

  /** Writing back the text of a filter adds exactly the pids whose text fitted: the longest initial part of the set, in
      ascending order, that the page holds. The text of an empty filter is not accepted back. */
  lemma RoundTrip(pids: seq<nat>, cap: nat, x: Tx)
    requires (forall i :: 0 <= i < |pids| ==> pids[i] < UINT_LIMIT) && (pids != [] ==> |Decimal(pids[0])| + 1 <= cap)
    ensures var y := Apply(x, WriteFilter(Printed(pids, cap)));
      if pids == [] then y == Tx({}, x.enabled, false)
      else y == Tx(x.filter + SetOf(Fitting(pids, cap)), x.enabled, x.enabled)
  {
    if pids == [] {
      NoneFails(x.filter);
    } else {
      var q := Fitting(pids, cap);
      FittingIsLongest(pids, cap);
      FirstFits(pids, cap);
      ListedSplits(q);
      StripOf(Listed(q)[..|Listed(q)| - 1]);
      TokensAdd(q, x.filter);
    }
  }

  lemma NoneFails(f: set<nat>)
    ensures Added(SplitOn(',', Strip("none\n")), f).None?
  {
    assert "none\n"[..4] == "none";
    assert Strip("none\n") == "none";
    NoneToSplit(',', "none");
    assert "none" in SplitOn(',', "none");
    assert !IsDigit("none"[0]);
    AddedFails(SplitOn(',', "none"), f);
  }

  /** The whole filter survives the round trip exactly if its text fits. */
  lemma {:induction false} RoundTripWhole(pids: seq<nat>, cap: nat, enabled: bool)
    requires (forall i :: 0 <= i < |pids| ==> pids[i] < UINT_LIMIT) && pids != [] && Rising(pids) && |Decimal(pids[0])| + 1 <= cap
    ensures Apply(Tx({}, enabled, enabled), WriteFilter(Printed(pids, cap))).filter == SetOf(pids)
      <==> |Listed(pids)| <= cap
  {
    RoundTrip(pids, cap, Tx({}, enabled, enabled));
    FittingIsLongest(pids, cap);
    var q := Fitting(pids, cap);
    assert {} + SetOf(q) == SetOf(q);
    if |Listed(pids)| > cap {
      var last := pids[|pids| - 1];
      assert last in SetOf(pids);
      assert last !in q;
    }
  }
}
