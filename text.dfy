/** The string operations of Python and JavaScript that the pipeline relies on, written out:
    `str.strip`, `str.split()`, `str.join`, `str.find`, `str.rfind`, slicing, integer
    `toString()` and `String.prototype.padStart`. */
module Text {

  /** Python's `str.isspace` on one character. */
  predicate IsSpace(c: char)
  {
    var n := c as int;
    n == 0x20 || 0x09 <= n <= 0x0D || 0x1C <= n <= 0x1F || n == 0x85 || n == 0xA0 ||
    n == 0x1680 || 0x2000 <= n <= 0x200A || n == 0x2028 || n == 0x2029 || n == 0x202F ||
    n == 0x205F || n == 0x3000
  }

  predicate AllSpace(s: string)
  {
    forall i :: 0 <= i < |s| ==> IsSpace(s[i])
  }

  predicate NoSpace(s: string)
  {
    forall i :: 0 <= i < |s| ==> !IsSpace(s[i])
  }

  /** `s.lstrip()`: `s` without its leading whitespace. */
  function TrimLeft(s: string): (r: string)
    ensures |r| <= |s|
    ensures r == [] || !IsSpace(r[0])
  {
    if s != [] && IsSpace(s[0]) then TrimLeft(s[1..]) else s
  }

  /** What `lstrip` drops is whitespace, and what it keeps is the rest of the string. */
  lemma {:induction false} TrimLeftSplits(s: string)
    ensures s == s[..|s| - |TrimLeft(s)|] + TrimLeft(s)
    ensures AllSpace(s[..|s| - |TrimLeft(s)|])
    decreases |s|
  {
    if s != [] && IsSpace(s[0]) {
      TrimLeftSplits(s[1..]);
      var k := |s| - |TrimLeft(s)|;
      assert s[..k] == [s[0]] + s[1..][..k - 1];
      assert s[k..] == s[1..][k - 1..];
    }
  }

  /** `s.rstrip()`: `s` without its trailing whitespace. */
  function TrimRight(s: string): (r: string)
    ensures |r| <= |s|
    ensures r == [] || !IsSpace(r[|r| - 1])
  {
    if s != [] && IsSpace(s[|s| - 1]) then TrimRight(s[..|s| - 1]) else s
  }

  /** What `rstrip` keeps is the start of the string, and what it drops is whitespace. */
  lemma {:induction false} TrimRightSplits(s: string)
    ensures s == TrimRight(s) + s[|TrimRight(s)|..]
    ensures AllSpace(s[|TrimRight(s)|..])
    decreases |s|
  {
    if s != [] && IsSpace(s[|s| - 1]) {
      var p := s[..|s| - 1];
      TrimRightSplits(p);
      var k := |TrimRight(s)|;
      assert s[..k] == p[..k];
      assert s[k..] == p[k..] + [s[|s| - 1]];
    }
  }

  /** `s.strip()`. */
  function Strip(s: string): string
  {
    TrimRight(TrimLeft(s))
  }


  /** The number of code points in `s.lower()`. Python lowercases U+0130 (capital I with dot
      above) to two code points, 'i' followed by U+0307, and every other character to one. */
  function LoweredLength(s: string): (n: nat)
    ensures n >= |s|
    ensures n == |s| <==> '\U{0130}' !in s
  {
    if s == [] then 0 else (if s[0] == '\U{0130}' then 2 else 1) + LoweredLength(s[1..])
  }

  /** Stripping leaves nothing exactly when the string is whitespace only. */
  lemma StripEmptyIff(s: string)
    ensures Strip(s) == [] <==> AllSpace(s)
  {
    var t := TrimLeft(s);
    TrimLeftSplits(s);
    TrimRightSplits(t);
    if Strip(s) == [] {
      assert AllSpace(t) by {
        assert t == TrimRight(t) + t[|TrimRight(t)|..];
      }
      assert t == [];
      assert s[..|s| - |t|] == s;
    }
    if AllSpace(s) {
      TrimLeftOfAllSpace(s);
    }
  }

  /** A string whose ends are not whitespace is its own strip. */
  lemma StripTight(s: string)
    requires s != [] && !IsSpace(s[0]) && !IsSpace(s[|s| - 1])
    ensures Strip(s) == s
  {
  }

  /** Length of the longest whitespace-free prefix of `s`. */
  function WordEnd(s: string): (n: nat)
    ensures n <= |s| && NoSpace(s[..n]) && (n == |s| || IsSpace(s[n]))
  {
    if s == [] || IsSpace(s[0]) then 0
    else
      var k := WordEnd(s[1..]);
      assert s[..k + 1] == [s[0]] + s[1..][..k];
      1 + k
  }

  /** `s.split()` with no separator: the maximal runs of non-whitespace characters, in order. */
  function Split(s: string): (words: seq<string>)
    ensures forall i :: 0 <= i < |words| ==> words[i] != [] && NoSpace(words[i])
    decreases |s|
  {
    var t := TrimLeft(s);
    if t == [] then []
    else
      var n := WordEnd(t);
      [t[..n]] + Split(t[n..])
  }

  lemma {:induction false} TrimLeftOfAllSpace(s: string)
    requires AllSpace(s)
    ensures TrimLeft(s) == []
    decreases |s|
  {
    if s != [] {
      TrimLeftOfAllSpace(s[1..]);
    }
  }

  lemma TrimLeftIdempotent(s: string)
    ensures TrimLeft(TrimLeft(s)) == TrimLeft(s)
  {
  }

  /** Whitespace appended after a non-blank string survives a left trim unchanged. */
  lemma {:induction false} TrimLeftAppend(s: string, x: string)
    requires TrimLeft(s) != []
    ensures TrimLeft(s + x) == TrimLeft(s) + x
    decreases |s|
  {
    assert s != [];
    assert (s + x)[0] == s[0];
    if IsSpace(s[0]) {
      assert TrimLeft(s) == TrimLeft(s[1..]);
      assert (s + x)[1..] == s[1..] + x;
      assert TrimLeft(s + x) == TrimLeft(s[1..] + x);
      TrimLeftAppend(s[1..], x);
    } else {
      assert TrimLeft(s) == s;
      assert TrimLeft(s + x) == s + x;
    }
  }

  lemma {:induction false} WordEndAppendSpace(t: string, sp: string)
    requires AllSpace(sp)
    ensures WordEnd(t + sp) == WordEnd(t)
    decreases |t|
  {
    if t == [] {
      if sp != [] {
        assert (t + sp)[0] == sp[0];
      }
    } else if !IsSpace(t[0]) {
      assert (t + sp)[1..] == t[1..] + sp;
      WordEndAppendSpace(t[1..], sp);
    }
  }

  /** Trailing whitespace never changes the words `split()` finds. */
  lemma {:induction false} SplitAppendSpace(s: string, sp: string)
    requires AllSpace(sp)
    ensures Split(s + sp) == Split(s)
    decreases |s|
  {
    var t := TrimLeft(s);
    if t == [] {
      TrimLeftSplits(s);
      assert s[..|s| - |t|] == s;
      AllSpaceAppend(s, sp);
      TrimLeftOfAllSpace(s + sp);
    } else {
      TrimLeftAppend(s, sp);
      WordEndAppendSpace(t, sp);
      var n := WordEnd(t);
      assert (t + sp)[..n] == t[..n];
      assert (t + sp)[n..] == t[n..] + sp;
      SplitAppendSpace(t[n..], sp);
    }
  }

  lemma AllSpaceAppend(s: string, sp: string)
    requires AllSpace(s) && AllSpace(sp)
    ensures AllSpace(s + sp)
  {
    forall i | 0 <= i < |s + sp| ensures IsSpace((s + sp)[i]) {
      if i < |s| {
        assert (s + sp)[i] == s[i];
      } else {
        assert (s + sp)[i] == sp[i - |s|];
      }
    }
  }

  /** `split()` finds the same words in `s` and in `s.strip()`. */
  lemma SplitOfStrip(s: string)
    ensures Split(Strip(s)) == Split(s)
  {
    var t := TrimLeft(s);
    var u := TrimRight(t);
    TrimRightSplits(t);
    SplitAppendSpace(u, t[|u|..]);
    TrimLeftIdempotent(s);
  }

  /** A word followed by a space and more text splits into that word and the words of the rest. */
  lemma SplitWordThen(w: string, rest: string)
    requires w != [] && NoSpace(w)
    ensures Split(w + " " + rest) == [w] + Split(rest)
  {
    var s := w + " " + rest;
    assert s == w + (" " + rest);
    assert s[0] == w[0];
    assert TrimLeft(s) == s;
    WordEndOfWord(w, " " + rest);
    assert s[..|w|] == w;
    assert s[|w|..] == " " + rest;
    SplitLeadingSpace(rest);
  }

  lemma SplitLeadingSpace(x: string)
    ensures Split(" " + x) == Split(x)
  {
    assert (" " + x)[1..] == x;
    assert TrimLeft(" " + x) == TrimLeft(x);
  }

  /** A single word splits into itself. */
  lemma SplitWord(w: string)
    requires w != [] && NoSpace(w)
    ensures Split(w) == [w]
  {
    assert TrimLeft(w) == w;
    WordEndOfWord(w, "");
    assert w + "" == w;
    assert w[|w|..] == [];
  }

  lemma {:induction false} WordEndOfWord(w: string, rest: string)
    requires NoSpace(w) && (rest == [] || IsSpace(rest[0]))
    ensures WordEnd(w + rest) == |w|
    decreases |w|
  {
    if w == [] {
      assert w + rest == rest;
    } else {
      assert (w + rest)[1..] == w[1..] + rest;
      WordEndOfWord(w[1..], rest);
    }
  }

  /** `sep.join(parts)`. */
  function Join(sep: string, parts: seq<string>): string
  {
    if |parts| == 0 then ""
    else if |parts| == 1 then parts[0]
    else parts[0] + sep + Join(sep, parts[1..])
  }

  /** Joining one more part appends the separator and that part. */
  lemma {:induction false} JoinSnoc(sep: string, parts: seq<string>, last: string)
    requires parts != []
    ensures Join(sep, parts + [last]) == Join(sep, parts) + sep + last
    decreases |parts|
  {
    if |parts| > 1 {
      assert (parts + [last])[1..] == parts[1..] + [last];
      JoinSnoc(sep, parts[1..], last);
    }
  }

  /** Joined with a whitespace separator, the result is blank exactly when every part is. */
  lemma {:induction false} JoinAllSpace(sep: string, parts: seq<string>)
    requires AllSpace(sep)
    ensures AllSpace(Join(sep, parts)) <==> forall i :: 0 <= i < |parts| ==> AllSpace(parts[i])
    decreases |parts|
  {
    if |parts| > 1 {
      JoinAllSpace(sep, parts[1..]);
      var tail := Join(sep, parts[1..]);
      var j := parts[0] + sep + tail;
      assert forall i :: 0 <= i < |parts[0]| ==> j[i] == parts[0][i];
      assert forall i :: 0 <= i < |tail| ==> j[|parts[0]| + |sep| + i] == tail[i];
      if AllSpace(j) {
        forall i | 0 <= i < |parts| ensures AllSpace(parts[i]) {
          if i > 0 {
            assert parts[i] == parts[1..][i - 1];
          }
        }
      }
      if forall i :: 0 <= i < |parts| ==> AllSpace(parts[i]) {
        assert forall i :: 0 <= i < |parts| - 1 ==> AllSpace(parts[1..][i]);
        assert AllSpace(parts[0]);
        forall i | 0 <= i < |j| ensures IsSpace(j[i]) {
          if i < |parts[0]| {
          } else if i < |parts[0]| + |sep| {
            assert j[i] == sep[i - |parts[0]|];
          } else {
            assert j[i] == tail[i - |parts[0]| - |sep|];
          }
        }
      }
    }
  }

  /** `s.find(c)`: the first index of `c` in `s`, or -1. */
  function Find(s: string, c: char): (i: int)
    ensures -1 <= i < |s|
    ensures i == -1 <==> forall j :: 0 <= j < |s| ==> s[j] != c
    ensures i >= 0 ==> s[i] == c && forall j :: 0 <= j < i ==> s[j] != c
  {
    if s == [] then -1
    else if s[0] == c then 0
    else
      var k := Find(s[1..], c);
      if k == -1 then -1 else k + 1
  }

  /** `s.rfind(c)`: the last index of `c` in `s`, or -1. */
  function RFind(s: string, c: char): (i: int)
    ensures -1 <= i < |s|
    ensures i == -1 <==> forall j :: 0 <= j < |s| ==> s[j] != c
    ensures i >= 0 ==> s[i] == c && forall j :: i < j < |s| ==> s[j] != c
  {
    if s == [] then -1
    else if s[|s| - 1] == c then |s| - 1
    else RFind(s[..|s| - 1], c)
  }

  /** In `p + q`, when `p` has no `c` and `q` starts with one, the first `c` is at `|p|`. */
  lemma FindAfter(p: string, q: string, c: char)
    requires c !in p && q != [] && q[0] == c
    ensures Find(p + q, c) == |p|
  {
    var s := p + q;
    assert s[|p|] == c;
    assert forall j :: 0 <= j < |p| ==> s[j] == p[j];
  }

  /** In `p + q`, when `p` ends with `c` and `q` has none, the last `c` is at `|p| - 1`. */
  lemma RFindBefore(p: string, q: string, c: char)
    requires c !in q && p != [] && p[|p| - 1] == c
    ensures RFind(p + q, c) == |p| - 1
  {
    var s := p + q;
    assert s[|p| - 1] == c;
    assert forall j :: |p| <= j < |s| ==> s[j] == q[j - |p|];
  }

  /** Python's `s[a:b]` for in-range bounds: empty when `a` is past `b`. */
  function Slice(s: string, a: nat, b: nat): (r: string)
    requires a <= |s| && b <= |s|
    ensures a <= b ==> r == s[a..b]
    ensures b < a ==> r == ""
  {
    if a <= b then s[a..b] else ""
  }

  predicate IsDigit(c: char)
  {
    '0' <= c <= '9'
  }

  predicate AllDigits(s: string)
  {
    forall i :: 0 <= i < |s| ==> IsDigit(s[i])
  }

  function DigitChar(d: nat): (c: char)
    requires d < 10
    ensures IsDigit(c) && c as int - '0' as int == d
  {
    (d + '0' as int) as char
  }

  function DigitValue(c: char): nat
    requires IsDigit(c)
  {
    c as int - '0' as int
  }

  /** `n.toString()` / `str(n)` for a non-negative integer: its decimal digits, most significant first. */
  function Decimal(n: nat): (r: string)
    ensures |r| >= 1 && AllDigits(r)
    ensures |r| == 1 <==> n < 10
    ensures |r| == 2 <==> 10 <= n < 100
  {
    if n < 10 then [DigitChar(n)] else Decimal(n / 10) + [DigitChar(n % 10)]
  }

  /** The value of a string of decimal digits (the empty string reads as 0). */
  function ParseDecimal(s: string): nat
    requires AllDigits(s)
  {
    if s == [] then 0 else ParseDecimal(s[..|s| - 1]) * 10 + DigitValue(s[|s| - 1])
  }

  /** Reading back the decimal rendering of `n` gives `n`. */
  lemma {:induction false} ParseDecimalOfDecimal(n: nat)
    ensures ParseDecimal(Decimal(n)) == n
  {
    if n >= 10 {
      var d := Decimal(n);
      assert d[..|d| - 1] == Decimal(n / 10);
      ParseDecimalOfDecimal(n / 10);
    }
  }

  /** A leading zero does not change the value of a digit string. */
  lemma {:induction false} ParseDecimalLeadingZero(s: string)
    requires AllDigits(s)
    ensures AllDigits("0" + s) && ParseDecimal("0" + s) == ParseDecimal(s)
    decreases |s|
  {
    if s != [] {
      assert ("0" + s)[..|"0" + s| - 1] == "0" + s[..|s| - 1];
      ParseDecimalLeadingZero(s[..|s| - 1]);
    }
  }

  /** JavaScript's `s.padStart(width, fill)` with a one-character fill. */
  function PadStart(s: string, width: nat, fill: char): (r: string)
    ensures |r| == if |s| >= width then |s| else width
    ensures r[|r| - |s|..] == s
    ensures forall i :: 0 <= i < |r| - |s| ==> r[i] == fill
    decreases width - |s|
  {
    if |s| >= width then s else PadStart([fill] + s, width, fill)
  }
}
