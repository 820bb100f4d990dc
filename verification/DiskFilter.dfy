/** The disk filter of the utilisation statistics: its text form, and the probe it switches. */
module DiskFilters {
  import opened Text
  import opened Selections

  const MAX_DISK_NUM := 20
  const MAX_DNAME_SIZE := 20
  const PAGE_SIZE := 4096

  predicate IsName(name: string) { 0 < |name| < MAX_DNAME_SIZE && Without(',', name) }

  // ---- the text of a list of names ----

  function Printed(names: seq<string>): string {
    if names == [] then "none\n" else Joined(names) + "\n"
  }

  lemma {:induction false} JoinedIsShort(names: seq<string>)
    requires names != [] && forall i :: 0 <= i < |names| ==> |names[i]| < MAX_DNAME_SIZE
    ensures |Joined(names)| < MAX_DNAME_SIZE * |names|
  {
    if |names| > 1 { JoinedIsShort(names[..|names| - 1]); }
  }

  /** The text of the names before place i, each followed by a comma. */
  function Head(names: seq<string>, i: nat): string
    requires i <= |names|
  {
    if i == 0 then "" else Joined(names[..i]) + ","
  }

  /** The page has room for the next name and one more character. */
  lemma StillFits(names: seq<string>, i: nat)
    requires i < |names| <= MAX_DISK_NUM && forall j :: 0 <= j < |names| ==> |names[j]| < MAX_DNAME_SIZE
    ensures |Head(names, i)| + |names[i]| + 1 < PAGE_SIZE
    ensures Head(names, i) + (names[i] + ",") == Head(names, i + 1)
    ensures i == |names| - 1 ==> Head(names, i) + (names[i] + "\n") == Printed(names)
  {
    var next, head := names[..i + 1], Head(names, i);
    assert next[..i] == names[..i] && next[i] == names[i];
    JoinedIsShort(next);
    assert head + names[i] == Joined(next);
    assert head + (names[i] + ",") == head + names[i] + ",";
    assert head + (names[i] + "\n") == head + names[i] + "\n";
    if i == |names| - 1 { assert next == names; }
  }

  // ---- the names a text sets ----

  datatype Names = Names(list: seq<string>, ok: bool)

  /** One token: an empty one is skipped, one that is too long is refused. */
  function WithName(token: string, list: seq<string>): Names {
    if token == "" then Names(list, true)
    else if |token| + 1 > MAX_DNAME_SIZE then Names(list, false)
    else Names(list + [token], true)
  }

  /** The names stored, up to the first token that is refused. */
  function Stored(tokens: seq<string>): Names {
    if tokens == [] then Names([], true) else
    var before := Stored(tokens[..|tokens| - 1]);
    if !before.ok then before else WithName(tokens[|tokens| - 1], before.list)
  }

  lemma {:induction false} StoredGrows(tokens: seq<string>, i: nat)
    requires i <= |tokens|
    ensures |Stored(tokens[..i]).list| <= |Stored(tokens).list|
    ensures (!Stored(tokens[..i]).ok ==> Stored(tokens) == Stored(tokens[..i]))
    decreases |tokens|
  {
    if i == |tokens| {
      assert tokens[..i] == tokens;
    } else {
      assert tokens[..|tokens| - 1][..i] == tokens[..i];
      StoredGrows(tokens[..|tokens| - 1], i);
    }
  }

  /** Where the loop of a filter write stands: the first i tokens are stored. */
  ghost predicate OnTrack(tokens: seq<string>, i: nat, s: string, more: bool, list: seq<string>) {
    Ahead(tokens, i, s, more) && Stored(tokens[..i]) == Names(list, true)
  }

  lemma AllAhead(s: string)
    ensures OnTrack(SplitOn(',', s), 0, s, true, [])
  {
    AllTokensAhead(s);
    assert SplitOn(',', s)[..0] == [];
  }

  lemma AllDone(tokens: seq<string>, i: nat, s: string, list: seq<string>)
    requires OnTrack(tokens, i, s, false, list)
    ensures Stored(tokens) == Names(list, true)
  {
    assert tokens[..i] == tokens;
  }

  /** One turn of the loop. */
  lemma TokenStep(tokens: seq<string>, i: nat, s: string, list: seq<string>)
    requires OnTrack(tokens, i, s, true, list)
    ensures var n := ToChar(s, ','); var r := WithName(s[..n], list);
      && |r.list| <= |Stored(tokens).list|
      && if r.ok then OnTrack(tokens, i + 1, if n < |s| then s[n + 1..] else "", n < |s|, r.list)
         else Stored(tokens) == r
  {
    NextToken(tokens, i, s);
    assert tokens[..i + 1][..i] == tokens[..i];
    StoredGrows(tokens, i + 1);
  }

  lemma {:induction false} NamesAreStored(names: seq<string>)
    requires forall i :: 0 <= i < |names| ==> IsName(names[i])
    ensures Stored(names) == Names(names, true)
  {
    if names != [] {
      NamesAreStored(names[..|names| - 1]);
      assert names == names[..|names| - 1] + [names[|names| - 1]];
    }
  }

  /** A write fails exactly if some token is too long. */
  lemma {:induction false} StoredFails(tokens: seq<string>)
    ensures Stored(tokens).ok <==> forall i :: 0 <= i < |tokens| ==> |tokens[i]| < MAX_DNAME_SIZE
  {
    if tokens != [] {
      var init := tokens[..|tokens| - 1];
      StoredFails(init);
      assert forall i :: 0 <= i < |init| ==> init[i] == tokens[i];
    }
  }

  function NonEmpty(tokens: seq<string>): nat -> bool {
    (i: nat) => i < |tokens| && tokens[i] != ""
  }

  lemma {:induction false} StoredSoFar(tokens: seq<string>, at: seq<nat>, n: nat)
    requires n <= |tokens| && Lists(at, n, NonEmpty(tokens)) && forall i :: 0 <= i < n ==> |tokens[i]| < MAX_DNAME_SIZE
    ensures Stored(tokens[..n]).ok && Picked(tokens, at, Stored(tokens[..n]).list)
    decreases n
  {
    if n == 0 {
      ListsNothing(at, NonEmpty(tokens));
    } else {
      ListsStep(at, n - 1, NonEmpty(tokens));
      StoredNext(tokens, n - 1);
      if tokens[n - 1] == "" {
        StoredSoFar(tokens, at, n - 1);
      } else {
        StoredSoFar(tokens, at[..|at| - 1], n - 1);
        PickedMore(tokens, at, Stored(tokens[..n - 1]).list);
      }
    }
  }

  lemma StoredNext(tokens: seq<string>, n: nat)
    requires n < |tokens|
    ensures Stored(tokens[..n]).ok ==> Stored(tokens[..n + 1]) == WithName(tokens[n], Stored(tokens[..n]).list)
  {
    assert tokens[..n + 1][..n] == tokens[..n];
  }

  /** What a text stores, in terms of its tokens: the non-empty ones in front of the first that is too long, in order. */
  lemma StoredIs(tokens: seq<string>, at: seq<nat>, stop: nat)
    requires stop <= |tokens| && (forall i :: 0 <= i < stop ==> |tokens[i]| < MAX_DNAME_SIZE)
    requires stop < |tokens| ==> |tokens[stop]| >= MAX_DNAME_SIZE
    requires Lists(at, stop, NonEmpty(tokens))
    ensures Picked(tokens, at, Stored(tokens).list) && (Stored(tokens).ok <==> stop == |tokens|)
  {
    StoredSoFar(tokens, at, stop);
    if stop < |tokens| {
      StoredNext(tokens, stop);
      StoredGrows(tokens, stop + 1);
    } else {
      assert tokens[..stop] == tokens;
    }
  }

  // ---- the state and its operations ----

  datatype Disk = Disk(names: seq<string>, enabled: bool, probe: bool)

  datatype DiskOp = SetEnabled(on: bool) | SetNames(text: string) | ShowNames | ShowUtils

  function ApplyDisk(x: Disk, op: DiskOp): Disk {
    match op
    case SetEnabled(on) => if on then x.(enabled := true, probe := true) else Disk([], false, false)
    case SetNames(text) =>
      var r := Stored(SplitOn(',', Strip(text)));
      Disk(r.list, x.enabled, r.ok && x.enabled)
    case ShowNames => x
    case ShowUtils => x.(probe := x.enabled)
  }

  class DiskUtils {
    const dnames: array<string>
    var didx: nat
    var denabled: bool
    var probe: bool

    ghost predicate Valid()
      reads this, dnames
    {
      && dnames.Length == MAX_DISK_NUM && didx <= MAX_DISK_NUM
      && forall i :: 0 <= i < didx ==> 0 < |dnames[i]| < MAX_DNAME_SIZE
    }

    ghost function Value(): Disk
      requires Valid()
      reads this, dnames
    {
      Disk(dnames[..didx], denabled, probe)
    }

    constructor ()
      ensures Valid() && fresh(dnames) && Value() == Disk([], false, false)
    {
      dnames := new string[MAX_DISK_NUM](_ => "");
      didx, denabled, probe := 0, false, false;
    }

    method EnableWrite(on: bool)
      requires Valid()
      modifies this
      ensures Valid() && Value() == ApplyDisk(old(Value()), SetEnabled(on))
      ensures denabled == on && probe == on && Value().names == if on then old(Value()).names else []
    {
      denabled := on;
      if on {
        probe := true;
      } else {
        probe := false;
        didx := 0;
      }
    }

    /** The array has room for MAX_DISK_NUM names, and the loop does not count them. */
    method FilterWrite(text: string) returns (r: WriteResult)
      requires Valid()
      modifies this, dnames
      ensures Valid() && (r.Overrun? <==> |Stored(SplitOn(',', Strip(text))).list| > MAX_DISK_NUM)
      ensures !r.Overrun? ==> Value() == ApplyDisk(old(Value()), SetNames(text))
      ensures !r.Overrun? ==> (r.Written? <==> Stored(SplitOn(',', Strip(text))).ok)
      ensures !r.Overrun? ==> denabled == old(denabled) && (probe <==> r.Written? && denabled)
    {
      var s := Strip(text);
      didx, probe := 0, false;
      AllAhead(s);
      r := StoreTokens(s, SplitOn(',', s));
      if r.Written? && denabled {
        probe := true;
      }
    }

    /** The loop of a filter write. */
    method StoreTokens(text: string, ghost tokens: seq<string>) returns (r: WriteResult)
      requires Valid() && didx == 0 && OnTrack(tokens, 0, text, true, [])
      modifies `didx, dnames
      ensures Valid() && (r.Overrun? <==> |Stored(tokens).list| > MAX_DISK_NUM)
      ensures !r.Overrun? ==> dnames[..didx] == Stored(tokens).list && (r.Written? <==> Stored(tokens).ok)
    {
      var s, more := text, true;
      ghost var i := 0;
      while more
        invariant Valid() && OnTrack(tokens, i, s, more, dnames[..didx])
        decreases |tokens| - i
      {
        r, s, more := StoreNext(s, tokens, i);
        if !r.Written? {
          return;
        }
        i := i + 1;
      }
      AllDone(tokens, i, s, dnames[..didx]);
      r := Written;
    }

    /** Its body: the part before the next comma is the next token. */
    method StoreNext(s: string, ghost tokens: seq<string>, ghost i: nat)
      returns (r: WriteResult, rest: string, more: bool)
      requires Valid() && i < |tokens| && OnTrack(tokens, i, s, true, dnames[..didx])
      modifies `didx, dnames
      ensures Valid() && (r.Overrun? ==> |Stored(tokens).list| > MAX_DISK_NUM)
      ensures r.Refused? ==> Stored(tokens) == Names(dnames[..didx], false)
      ensures r.Written? ==> OnTrack(tokens, i + 1, rest, more, dnames[..didx]) && (more ==> i + 1 < |tokens|)
    {
      var n := ToChar(s, ',');
      TokenStep(tokens, i, s, dnames[..didx]);
      r := AddToken(s[..n], dnames[..didx]);
      more := n < |s|;
      rest := if n < |s| then s[n + 1..] else "";
    }

    method AddToken(token: string, ghost list: seq<string>) returns (r: WriteResult)
      requires Valid() && dnames[..didx] == list
      modifies `didx, dnames
      ensures Valid() && (r.Overrun? <==> |WithName(token, list).list| > MAX_DISK_NUM)
      ensures !r.Overrun? ==> (r.Written? <==> WithName(token, list).ok) && dnames[..didx] == WithName(token, list).list
    {
      if token == "" {
        return Written;
      }
      if |token| + 1 > MAX_DNAME_SIZE {
        return Refused;
      }
      if didx == MAX_DISK_NUM {
        return Overrun;
      }
      dnames[didx] := token;
      didx := didx + 1;
      assert dnames[..didx] == list + [token];
      r := Written;
    }

    /** However long the names, the page has room for all of them. */
    method FilterRead() returns (text: string)
      requires Valid()
      ensures text == Printed(Value().names)
    {
      var s := new TraceSeq(PAGE_SIZE - 1);
      if didx == 0 {
        s.Puts("none\n");
        return s.text;
      }
      ghost var names := dnames[..didx];
      for i := 0 to didx - 1
        invariant s.cap == PAGE_SIZE - 1 && !s.full && s.text == Head(names, i)
      {
        StillFits(names, i);
        s.Puts(dnames[i] + ",");
      }
      StillFits(names, didx - 1);
      s.Puts(dnames[didx - 1] + "\n");
      text := s.text;
    }

    method OutputRead()
      requires Valid()
      modifies this
      ensures Valid() && Value() == ApplyDisk(old(Value()), ShowUtils)
    {
      probe := false;
      if denabled {
        probe := true;
      }
    }
  }

  function ApplyDiskOps(x: Disk, ops: seq<DiskOp>): Disk {
    if ops == [] then x else ApplyDisk(ApplyDiskOps(x, ops[..|ops| - 1]), ops[|ops| - 1])
  }

  /** The last operation that could switch the probe was a filter write with a name that is too long. */
  predicate LastWriteFailed(ops: seq<DiskOp>) {
    ops != [] &&
    match ops[|ops| - 1]
    case SetEnabled(_) => false
    case SetNames(text) => exists i :: 0 <= i < |SplitOn(',', Strip(text))| && |SplitOn(',', Strip(text))[i]| >= MAX_DNAME_SIZE
    case ShowNames => LastWriteFailed(ops[..|ops| - 1])
    case ShowUtils => false
  }

  /** Over all sequences of operations: the probe is on exactly if the flag is set, except after a failed filter write,
      until the next enable, successful filter write or output read. */
  lemma {:induction false} ProbeFollowsFlag(ops: seq<DiskOp>)
    ensures var x := ApplyDiskOps(Disk([], false, false), ops);
      x.probe <==> x.enabled && !LastWriteFailed(ops)
  {
    if ops != [] {
      ProbeFollowsFlag(ops[..|ops| - 1]);
      match ops[|ops| - 1]
      case SetNames(text) => StoredFails(SplitOn(',', Strip(text)));
      case _ =>
    }
  }

  /** Operation i is the last write to the flag. */
  ghost predicate LastSwitch(ops: seq<DiskOp>, i: int) {
    0 <= i < |ops| && ops[i].SetEnabled? && forall j :: i < j < |ops| ==> !ops[j].SetEnabled?
  }

  /** Over all sequences of operations, the flag is what the last write to it said, and off before one. */
  lemma {:induction false} FlagIsLastSwitch(ops: seq<DiskOp>)
    ensures ApplyDiskOps(Disk([], false, false), ops).enabled <==> exists i :: LastSwitch(ops, i) && ops[i].on
  {
    if ops != [] {
      var init, n := ops[..|ops| - 1], |ops| - 1;
      FlagIsLastSwitch(init);
      if ops[n].SetEnabled? {
        assert LastSwitch(ops, n);
        assert forall i :: LastSwitch(ops, i) ==> i == n;
      } else {
        assert forall i :: LastSwitch(ops, i) <==> LastSwitch(init, i);
      }
    }
  }

  /** The operation replaces the names: it writes new ones, or it disables. */
  predicate Renames(op: DiskOp) { op.SetNames? || (op.SetEnabled? && !op.on) }

  ghost predicate LastRenaming(ops: seq<DiskOp>, i: int) {
    0 <= i < |ops| && Renames(ops[i]) && forall j :: i < j < |ops| ==> !Renames(ops[j])
  }

  /** Over all sequences of operations, the names are those of the last text written, none after a disabling since, and none
      before one was written. */
  lemma {:induction false} NamesAreLastWritten(ops: seq<DiskOp>)
    ensures var names := ApplyDiskOps(Disk([], false, false), ops).names;
      && ((forall i :: !LastRenaming(ops, i)) ==> names == [])
      && forall i :: LastRenaming(ops, i) ==>
           names == if ops[i].SetNames? then Stored(SplitOn(',', Strip(ops[i].text))).list else []
  {
    if ops != [] {
      var init, n := ops[..|ops| - 1], |ops| - 1;
      NamesAreLastWritten(init);
      if Renames(ops[n]) {
        assert LastRenaming(ops, n);
        assert forall i :: LastRenaming(ops, i) ==> i == n;
      } else {
        assert forall i :: LastRenaming(ops, i) <==> LastRenaming(init, i);
      }
    }
  }

  // ---- round trip ----

  lemma {:induction false} StoredIsNoLonger(tokens: seq<string>)
    ensures var r := Stored(tokens).list; r != [] ==> tokens != [] && |Joined(r)| <= |Joined(tokens)|
  {
    if tokens != [] {
      var init := tokens[..|tokens| - 1];
      StoredIsNoLonger(init);
      var r := Stored(init).list;
      if Stored(tokens).list != r {
        assert Stored(tokens).list[..|r|] == r;
      }
    }
  }

  predicate StartsInSpace(s: string) { s != "" && IsSpace(s[0]) }

  predicate EndsInSpace(s: string) { s != "" && IsSpace(s[|s| - 1]) }

  lemma {:induction false} JoinedEnds(names: seq<string>)
    requires names != [] && forall i :: 0 <= i < |names| ==> names[i] != ""
    ensures var s := Joined(names);
      s != "" && (StartsInSpace(s) <==> StartsInSpace(names[0])) && (EndsInSpace(s) <==> EndsInSpace(names[|names| - 1]))
  {
    if |names| > 1 { JoinedEnds(names[..|names| - 1]); }
  }

  lemma Restored(names: seq<string>)
    requires names != [] && forall i :: 0 <= i < |names| ==> IsName(names[i])
    requires !StartsInSpace(names[0]) && !EndsInSpace(names[|names| - 1])
    ensures Stored(SplitOn(',', Strip(Printed(names)))) == Names(names, true)
  {
    JoinedEnds(names);
    StripOf(Joined(names));
    JoinSplits(names);
    NamesAreStored(names);
  }

  lemma NotRestored(names: seq<string>)
    requires names != [] && forall i :: 0 <= i < |names| ==> IsName(names[i])
    requires StartsInSpace(names[0]) || EndsInSpace(names[|names| - 1])
    ensures Stored(SplitOn(',', Strip(Printed(names)))).list != names
  {
    var s := Strip(Printed(names));
    JoinedEnds(names);
    StripOf(Joined(names));
    SplitJoins(s);
    StoredIsNoLonger(SplitOn(',', s));
  }

  /** A name can start in white space: stripping only looks at the ends of the whole text. */
  lemma SpacedName(x: Disk)
    ensures ApplyDisk(x, SetNames(", a")).names == [" a"]
  {
    SplitHead(',', ", a");
    NoneToSplit(',', " a");
    assert Strip(", a") == ", a" && ", a"[1..] == " a" && ToChar(", a", ',') == 0;
    assert SplitOn(',', ", a") == [""] + [" a"];
    assert Stored([""]) == Names([], true);
    assert ([""] + [" a"])[..1] == [""];
  }

  /** Writing back the printed names restores them exactly if the first does not start, and the last does not end, in white
      space. */
  lemma RoundTrip(names: seq<string>, x: Disk)
    requires names != [] && forall i :: 0 <= i < |names| ==> IsName(names[i])
    ensures ApplyDisk(x, SetNames(Printed(names))).names == names
      <==> !StartsInSpace(names[0]) && !EndsInSpace(names[|names| - 1])
  {
    if StartsInSpace(names[0]) || EndsInSpace(names[|names| - 1]) {
      NotRestored(names);
    } else {
      Restored(names);
    }
  }

  /** The text of an empty filter, written back, sets a disk of the name "none". */
  lemma EmptyComesBackAsNone(x: Disk)
    ensures ApplyDisk(x, SetNames(Printed([]))).names == ["none"]
  {
    StripOf("none");
    assert "none" + "\n" == "none\n";
    NoneToSplit(',', "none");
    NamesAreStored(["none"]);
  }

  /** One name more than the array holds: a text that the code accepts and that does not fit. */
  lemma TooManyNames()
    ensures |Stored(SplitOn(',', Strip(Printed(seq(21, _ => "a"))))).list| > MAX_DISK_NUM
  {
    Restored(seq(21, _ => "a"));
  }
}
