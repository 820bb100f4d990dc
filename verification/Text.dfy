/** Text as the kernel and the scripts print and take it apart. */
module Text {
  // ---- numbers as text ----

  predicate IsDigit(c: char) { '0' <= c <= '9' }

  function Digit(d: nat): char
    requires d < 10
  {
    '0' + d as char
  }

  function DigitValue(c: char): nat
    requires IsDigit(c)
  {
    c as nat - '0' as nat
  }

  function Decimal(n: nat): string {
    if n < 10 then [Digit(n)] else Decimal(n / 10) + [Digit(n % 10)]
  }

  predicate AllDigits(s: string) { forall i :: 0 <= i < |s| ==> IsDigit(s[i]) }

  function ValueOf(s: string): nat
    requires AllDigits(s)
  {
    if s == [] then 0 else 10 * ValueOf(s[..|s| - 1]) + DigitValue(s[|s| - 1])
  }

  lemma {:induction false} DecimalIsDigits(n: nat)
    ensures Decimal(n) != [] && AllDigits(Decimal(n)) && ValueOf(Decimal(n)) == n
  {
    if n < 10 {
      assert Decimal(n)[..0] == [];
    } else {
      DecimalIsDigits(n / 10);
      assert Decimal(n)[..|Decimal(n)| - 1] == Decimal(n / 10);
    }
  }

  /** The digits are the usual ones, and ten of them make the next place. */
  lemma DigitsAre(d: nat)
    requires d < 10
    ensures Digit(d) == "0123456789"[d] && DigitValue("0123456789"[d]) == d
    ensures ValueOf("10") == 10
  {
    assert "10"[..1] == "1" && "1"[..0] == "";
  }

  // ---- separators ----

  /** Space, and the control characters from tab to carriage return. */
  predicate IsSpace(c: char) { c == ' ' || '\t' <= c <= '\r' }

  /** Length of the part before the first c. */
  function ToChar(s: string, c: char): (n: nat)
    ensures n <= |s| && (forall i :: 0 <= i < n ==> s[i] != c) && (n < |s| ==> s[n] == c)
  {
    if s == [] || s[0] == c then 0 else 1 + ToChar(s[1..], c)
  }

  /** The pieces between the separators, empty ones included. */
  function SplitOn(c: char, s: string): seq<string>
    decreases |s|
  {
    var n := ToChar(s, c);
    if n == |s| then [s] else [s[..n]] + SplitOn(c, s[n + 1..])
  }

  /** The first piece, and the pieces after it. */
  lemma SplitHead(c: char, s: string)
    ensures var n := ToChar(s, c); var r := SplitOn(c, s);
      |r| > 0 && r[0] == s[..n] && (n == |s| <==> |r| == 1) && (n < |s| ==> r[1..] == SplitOn(c, s[n + 1..]))
  {
    assert s[..|s|] == s;
  }

  predicate Without(c: char, s: string) { forall i :: 0 <= i < |s| ==> s[i] != c }

  lemma {:induction false} NoneToSplit(c: char, t: string)
    requires Without(c, t)
    ensures ToChar(t, c) == |t| && SplitOn(c, t) == [t]
  {
    if t != [] { NoneToSplit(c, t[1..]); }
  }

  lemma {:induction false} ToCharOf(c: char, s: string, t: string)
    requires t != [] && t[0] == c
    ensures ToChar(s + t, c) == ToChar(s, c)
  {
    if s == [] {
      assert s + t == t;
    } else if s[0] != c {
      assert (s + t)[1..] == s[1..] + t;
      ToCharOf(c, s[1..], t);
    }
  }

  /** A last piece after one more separator. */
  lemma {:induction false} SplitAppends(c: char, s: string, t: string)
    requires Without(c, t)
    ensures SplitOn(c, s + [c] + t) == SplitOn(c, s) + [t]
    decreases |s|
  {
    var n := ToChar(s, c);
    ToCharOf(c, s, [c] + t);
    assert s + ([c] + t) == s + [c] + t;
    if n == |s| {
      assert (s + [c] + t)[..n] == s && (s + [c] + t)[n + 1..] == t;
      NoneToSplit(c, t);
    } else {
      assert (s + [c] + t)[..n] == s[..n];
      assert (s + [c] + t)[n + 1..] == s[n + 1..] + [c] + t;
      SplitAppends(c, s[n + 1..], t);
    }
  }

  // ---- separated by commas ----

  /** The parts, with commas between them. */
  function Joined(parts: seq<string>): string
    requires parts != []
  {
    if |parts| == 1 then parts[0] else Joined(parts[..|parts| - 1]) + "," + parts[|parts| - 1]
  }

  lemma {:induction false} JoinSplits(parts: seq<string>)
    requires parts != [] && forall i :: 0 <= i < |parts| ==> Without(',', parts[i])
    ensures SplitOn(',', Joined(parts)) == parts
  {
    if |parts| == 1 {
      NoneToSplit(',', parts[0]);
    } else {
      var init := parts[..|parts| - 1];
      JoinSplits(init);
      assert Joined(parts) == Joined(init) + [','] + parts[|parts| - 1];
      SplitAppends(',', Joined(init), parts[|parts| - 1]);
    }
  }

  lemma {:induction false} JoinedFromFront(a: string, parts: seq<string>)
    requires parts != []
    ensures Joined([a] + parts) == a + "," + Joined(parts)
  {
    if |parts| == 1 {
      assert ([a] + parts)[..1] == [a];
    } else {
      JoinedFromFront(a, parts[..|parts| - 1]);
      assert ([a] + parts)[..|parts|] == [a] + parts[..|parts| - 1];
      assert a + "," + Joined(parts) == a + "," + Joined(parts[..|parts| - 1]) + "," + parts[|parts| - 1];
    }
  }

  lemma CutAtComma(s: string, n: nat)
    requires n < |s| && s[n] == ','
    ensures s[..n] + "," + s[n + 1..] == s
  {
  }

  lemma {:induction false} SplitJoins(s: string)
    ensures SplitOn(',', s) != [] && Joined(SplitOn(',', s)) == s
    decreases |s|
  {
    var n := ToChar(s, ',');
    if n < |s| {
      var rest := s[n + 1..];
      SplitJoins(rest);
      JoinedFromFront(s[..n], SplitOn(',', rest));
      CutAtComma(s, n);
    }
  }

  // ---- printing into a page ----

  /** A trace_seq: a page that is filled token by token. cap is the number of characters a print may fill it to. */
  class TraceSeq {
    const cap: nat
    var text: string
    var full: bool

    constructor (cap: nat)
      ensures this.cap == cap && text == "" && !full
    {
      this.cap, text, full := cap, "", false;
    }

    /** A token is written whole or not at all, and after one that did not fit nothing is written any more. */
    method Puts(token: string)
      modifies this
      ensures full == (old(full) || |old(text)| + |token| > cap)
      ensures text == if full then old(text) else old(text) + token
    {
      if full {
        return;
      }
      if |token| > cap - |text| {
        full := true;
        return;
      }
      text := text + token;
    }

    /** The last character becomes a newline. */
    method Newline()
      requires text != ""
      modifies this
      ensures text == old(text)[..|old(text)| - 1] + "\n" && full == old(full)
    {
      text := text[..|text| - 1] + "\n";
    }
  }

  // ---- writing a filter ----

  /** How a filter write ends: done, refused with an error, or with a write outside the array that holds the filter, after
      which nothing more is said. */
  datatype WriteResult = Written | Refused | Overrun

  // ---- strstrip and strsep ----

  function TrimEnd(s: string): (r: string)
    ensures |r| <= |s|
  {
    if s != [] && IsSpace(s[|s| - 1]) then TrimEnd(s[..|s| - 1]) else s
  }

  function TrimStart(s: string): (r: string)
    ensures |r| <= |s|
  {
    if s != [] && IsSpace(s[0]) then TrimStart(s[1..]) else s
  }

  function Strip(s: string): string { TrimStart(TrimEnd(s)) }

  lemma {:induction false} TrimEndIs(s: string)
    ensures var r := TrimEnd(s);
      r == s[..|r|] && (forall i :: |r| <= i < |s| ==> IsSpace(s[i])) && (r != "" ==> !IsSpace(r[|r| - 1]))
  {
    if s != [] && IsSpace(s[|s| - 1]) { TrimEndIs(s[..|s| - 1]); }
  }

  lemma {:induction false} TrimStartIs(s: string)
    ensures var r := TrimStart(s); var n := |s| - |r|;
      r == s[n..] && (forall i :: 0 <= i < n ==> IsSpace(s[i])) && (r != "" ==> !IsSpace(r[0]))
  {
    if s != [] && IsSpace(s[0]) { TrimStartIs(s[1..]); }
  }

  /** Stripping takes the white space off both ends and leaves the rest. */
  lemma StripIs(s: string) returns (n: nat)
    ensures var r := Strip(s);
      && n + |r| <= |s| && r == s[n..n + |r|] && (r != "" ==> !IsSpace(r[0]) && !IsSpace(r[|r| - 1]))
      && forall i :: 0 <= i < n || n + |r| <= i < |s| ==> IsSpace(s[i])
  {
    var t := TrimEnd(s);
    TrimEndIs(s);
    TrimStartIs(t);
    n := |t| - |Strip(s)|;
  }

  /** A text with a newline behind it strips to itself exactly if it neither starts nor ends in white space; otherwise to
      something shorter. */
  lemma StripOf(body: string)
    requires body != ""
    ensures if IsSpace(body[0]) || IsSpace(body[|body| - 1]) then |Strip(body + "\n")| < |body|
      else Strip(body + "\n") == body
  {
    assert (body + "\n")[..|body|] == body;
    assert TrimEnd(body + "\n") == TrimEnd(body);
  }

  /** Where a strsep loop over the tokens of a text stands: i of them are taken, and s, unless it ran out, holds the rest. */
  ghost predicate Ahead(tokens: seq<string>, i: nat, s: string, more: bool) {
    i <= |tokens| && if more then i < |tokens| && SplitOn(',', s) == tokens[i..] else i == |tokens|
  }

  lemma AllTokensAhead(s: string)
    ensures Ahead(SplitOn(',', s), 0, s, true)
  {
    SplitHead(',', s);
    assert SplitOn(',', s)[0..] == SplitOn(',', s);
  }

  /** The part before the next comma is the next token. */
  lemma NextToken(tokens: seq<string>, i: nat, s: string)
    requires Ahead(tokens, i, s, true)
    ensures var n := ToChar(s, ',');
      s[..n] == tokens[i] && Ahead(tokens, i + 1, if n < |s| then s[n + 1..] else "", n < |s|)
  {
    SplitHead(',', s);
    assert tokens[i..][0] == tokens[i] && tokens[i..][1..] == tokens[i + 1..];
  }
}
