/**
 * The two pieces of Python text handling the sensors rely on: `str.split()`
 * with no separator (used on a block device's stat line) and `int(str)` (used
 * on the contents of a counter file and on a stat-line field).
 */
module Text {
  import opened Base

  /** Python's `str.isspace()`: the characters both `str.split()` and `int()` treat as white space. */
  predicate IsSpace(c: char) {
    var n := c as int;
    n == 0x20 || 0x09 <= n <= 0x0D || 0x1C <= n <= 0x1F || n == 0x85 || n == 0xA0 ||
    n == 0x1680 || 0x2000 <= n <= 0x200A || n == 0x2028 || n == 0x2029 ||
    n == 0x202F || n == 0x205F || n == 0x3000
  }

  predicate AllSpaces(s: string) {
    forall i :: 0 <= i < |s| ==> IsSpace(s[i])
  }

  /** A field `str.split()` can produce: non-empty and free of white space. */
  predicate IsWord(w: string) {
    |w| > 0 && forall i :: 0 <= i < |w| ==> !IsSpace(w[i])
  }

  /** `s` with its leading white space removed. */
  function DropLeading(s: string): string {
    if s != [] && IsSpace(s[0]) then DropLeading(s[1..]) else s
  }

  /** `s` with its trailing white space removed. */
  function DropTrailing(s: string): string {
    if s != [] && IsSpace(s[|s| - 1]) then DropTrailing(s[..|s| - 1]) else s
  }

  /** Python's `str.strip()` with no argument. */
  function Strip(s: string): string {
    DropTrailing(DropLeading(s))
  }

  /**
   * The fields of `cur + s` where `cur` is the part of a field read so far: a
   * field ends at white space or at the end of the text, and runs of white
   * space produce no empty fields.
   */
  function SplitFrom(s: string, cur: string): seq<string>
    decreases |s|
  {
    if s == [] then (if cur == [] then [] else [cur])
    else if IsSpace(s[0]) then
      (if cur == [] then SplitFrom(s[1..], []) else [cur] + SplitFrom(s[1..], []))
    else SplitFrom(s[1..], cur + [s[0]])
  }

  /** Python's `s.split()`: the maximal runs of non-white-space characters, in order. */
  function Split(s: string): seq<string> {
    SplitFrom(s, [])
  }

  /** Every field `split()` produces is non-empty and free of white space. */
  lemma {:induction false} SplitFromWords(s: string, cur: string)
    requires forall i :: 0 <= i < |cur| ==> !IsSpace(cur[i])
    ensures forall i :: 0 <= i < |SplitFrom(s, cur)| ==> IsWord(SplitFrom(s, cur)[i])
    decreases |s|
  {
    if s != [] {
      if IsSpace(s[0]) {
        SplitFromWords(s[1..], []);
        var rest := SplitFrom(s[1..], []);
        assert cur != [] ==> forall i :: 0 < i <= |rest| ==> ([cur] + rest)[i] == rest[i - 1];
      } else {
        var next := cur + [s[0]];
        assert forall i :: 0 <= i < |next| ==> !IsSpace(next[i]) by {
          forall i | 0 <= i < |next| ensures !IsSpace(next[i]) {
            if i < |cur| { assert next[i] == cur[i]; }
          }
        }
        SplitFromWords(s[1..], next);
      }
    }
  }

  lemma SplitWords(s: string)
    ensures forall i :: 0 <= i < |Split(s)| ==> IsWord(Split(s)[i])
  {
    SplitFromWords(s, []);
    assert Split(s) == SplitFrom(s, []);
  }

  /** The words `ws` written on one line, word i and word i + 1 separated by the white space `gaps[i]`. */
  function Joined(ws: seq<string>, gaps: seq<string>): string
    requires |ws| > 0 && |gaps| == |ws| - 1
    decreases |ws|
  {
    if |ws| == 1 then ws[0] else ws[0] + gaps[0] + Joined(ws[1..], gaps[1..])
  }

  /** Reading the characters of a word only extends the current field. */
  lemma {:induction false} SplitFromWord(w: string, rest: string, cur: string)
    requires forall i :: 0 <= i < |w| ==> !IsSpace(w[i])
    ensures SplitFrom(w + rest, cur) == SplitFrom(rest, cur + w)
    decreases |w|
  {
    if w == [] {
      assert w + rest == rest && cur + w == cur;
    } else {
      assert (w + rest)[0] == w[0];
      assert (w + rest)[1..] == w[1..] + rest;
      SplitFromWord(w[1..], rest, cur + [w[0]]);
      assert cur + [w[0]] + w[1..] == cur + w;
    }
  }

  /** Leading white space produces no field. */
  lemma {:induction false} SplitFromSpaces(sp: string, rest: string)
    requires AllSpaces(sp)
    ensures SplitFrom(sp + rest, []) == SplitFrom(rest, [])
    decreases |sp|
  {
    if sp == [] {
      assert sp + rest == rest;
    } else {
      assert (sp + rest)[0] == sp[0];
      assert (sp + rest)[1..] == sp[1..] + rest;
      SplitFromSpaces(sp[1..], rest);
    }
  }

  /** A run of white space ends the current field. */
  lemma SplitFromGap(sp: string, rest: string, cur: string)
    requires AllSpaces(sp) && |sp| > 0 && cur != []
    ensures SplitFrom(sp + rest, cur) == [cur] + SplitFrom(rest, [])
  {
    assert (sp + rest)[0] == sp[0];
    assert (sp + rest)[1..] == sp[1..] + rest;
    SplitFromSpaces(sp[1..], rest);
  }

  /** Trailing white space, a newline included, only ends the current field. */
  lemma {:induction false} SplitFromTrailing(sp: string, cur: string)
    requires AllSpaces(sp)
    ensures SplitFrom(sp, cur) == if cur == [] then [] else [cur]
    decreases |sp|
  {
    if sp != [] {
      SplitFromTrailing(sp[1..], []);
    }
  }

  lemma {:induction false} SplitFromJoined(ws: seq<string>, gaps: seq<string>, post: string, cur: string)
    requires |ws| > 0 && |gaps| == |ws| - 1
    requires forall i :: 0 <= i < |ws| ==> IsWord(ws[i])
    requires forall i :: 0 <= i < |gaps| ==> |gaps[i]| > 0 && AllSpaces(gaps[i])
    requires AllSpaces(post)
    requires forall i :: 0 <= i < |cur| ==> !IsSpace(cur[i])
    ensures SplitFrom(Joined(ws, gaps) + post, cur) == [cur + ws[0]] + ws[1..]
    decreases |ws|
  {
    if |ws| == 1 {
      SplitFromWord(ws[0], post, cur);
      SplitFromTrailing(post, cur + ws[0]);
      assert IsWord(ws[0]);
      assert ws[1..] == [];
    } else {
      var tail, rest := ws[1..], Joined(ws[1..], gaps[1..]) + post;
      assert Joined(ws, gaps) + post == ws[0] + (gaps[0] + rest);
      SplitFromWord(ws[0], gaps[0] + rest, cur);
      assert IsWord(ws[0]);
      SplitFromGap(gaps[0], rest, cur + ws[0]);
      assert forall i :: 0 <= i < |tail| ==> IsWord(tail[i]) by {
        forall i | 0 <= i < |tail| ensures IsWord(tail[i]) {
          assert tail[i] == ws[i + 1];
        }
      }
      assert forall i :: 0 <= i < |gaps| - 1 ==> gaps[1..][i] == gaps[i + 1];
      SplitFromJoined(tail, gaps[1..], post, []);
      assert [] + tail[0] == tail[0];
      assert [tail[0]] + tail[1..] == tail;
    }
  }

  /**
   * Splitting a line of words, with any white space before, between and after
   * them (the padding and the newline of a kernel stat line), gives the words back.
   */
  lemma SplitPadded(pre: string, ws: seq<string>, gaps: seq<string>, post: string)
    requires |ws| > 0 && |gaps| == |ws| - 1
    requires forall i :: 0 <= i < |ws| ==> IsWord(ws[i])
    requires forall i :: 0 <= i < |gaps| ==> |gaps[i]| > 0 && AllSpaces(gaps[i])
    requires AllSpaces(pre) && AllSpaces(post)
    ensures Split(pre + Joined(ws, gaps) + post) == ws
  {
    assert pre + Joined(ws, gaps) + post == pre + (Joined(ws, gaps) + post);
    SplitFromSpaces(pre, Joined(ws, gaps) + post);
    SplitFromJoined(ws, gaps, post, []);
    assert [] + ws[0] == ws[0];
    assert [ws[0]] + ws[1..] == ws;
  }

  predicate IsDigit(c: char) {
    '0' <= c <= '9'
  }

  predicate AllDigits(s: string) {
    forall i :: 0 <= i < |s| ==> IsDigit(s[i])
  }

  /** The value of a non-empty string of decimal digits, most significant first; `None` for anything else. */
  function Digits(t: string): Option<nat>
    decreases |t|
  {
    if t == [] || !IsDigit(t[|t| - 1]) then None
    else
      var d := t[|t| - 1] as int - '0' as int;
      if |t| == 1 then Some(d)
      else match Digits(t[..|t| - 1])
        case None => None
        case Some(v) => Some(v * 10 + d)
  }

  function DigitChar(d: nat): (c: char)
    requires d < 10
    ensures IsDigit(c) && c as int - '0' as int == d
  {
    ('0' as int + d) as char
  }

  /** The decimal representation of `n`, as Python's `str(n)` writes it. */
  function ShowNat(n: nat): (r: string)
    ensures IsWord(r) && AllDigits(r)
  {
    if n < 10 then [DigitChar(n)] else ShowNat(n / 10) + [DigitChar(n % 10)]
  }

  function ShowInt(n: int): (r: string)
    ensures IsWord(r)
  {
    if n < 0 then "-" + ShowNat(-n) else ShowNat(n)
  }

  lemma {:induction false} DigitsShowNat(n: nat)
    ensures Digits(ShowNat(n)) == Some(n)
  {
    if n >= 10 {
      var s := ShowNat(n);
      assert s[..|s| - 1] == ShowNat(n / 10);
      DigitsShowNat(n / 10);
    }
  }

  /**
   * Python's `int(s)` on a string: white space around the number is ignored, an
   * optional sign comes first, then at least one decimal digit; anything else is
   * a ValueError, here `None`.
   */
  function ParseInt(s: string): Option<int> {
    var t := Strip(s);
    if |t| > 0 && (t[0] == '-' || t[0] == '+') then
      match Digits(t[1..])
      case None => None
      case Some(v) => var n: int := v; Some(if t[0] == '-' then -n else n)
    else Digits(t)
  }

  lemma {:induction false} DropLeadingPadded(pre: string, x: string)
    requires AllSpaces(pre)
    requires |x| > 0 && !IsSpace(x[0])
    ensures DropLeading(pre + x) == x
    decreases |pre|
  {
    if pre == [] {
      assert pre + x == x;
    } else {
      assert (pre + x)[1..] == pre[1..] + x;
      DropLeadingPadded(pre[1..], x);
    }
  }

  lemma {:induction false} DropTrailingPadded(x: string, post: string)
    requires AllSpaces(post)
    requires |x| > 0 && !IsSpace(x[|x| - 1])
    ensures DropTrailing(x + post) == x
    decreases |post|
  {
    if post == [] {
      assert x + post == x;
    } else {
      assert (x + post)[..|x + post| - 1] == x + post[..|post| - 1];
      DropTrailingPadded(x, post[..|post| - 1]);
    }
  }

  lemma StripPadded(pre: string, w: string, post: string)
    requires AllSpaces(pre) && AllSpaces(post)
    requires |w| > 0 && !IsSpace(w[0]) && !IsSpace(w[|w| - 1])
    ensures Strip(pre + w + post) == w
  {
    assert pre + w + post == pre + (w + post);
    DropLeadingPadded(pre, w + post);
    DropTrailingPadded(w, post);
  }

  /** Reading back the number `str(n)` wrote, with any white space around it, gives `n`. */
  lemma ParseIntShowInt(n: int, pre: string, post: string)
    requires AllSpaces(pre) && AllSpaces(post)
    ensures ParseInt(pre + ShowInt(n) + post) == Some(n)
  {
    var w := ShowInt(n);
    StripPadded(pre, w, post);
    if n < 0 {
      assert w[1..] == ShowNat(-n);
      DigitsShowNat(-n);
    } else {
      assert w[0] != '-' && w[0] != '+';
      DigitsShowNat(n);
    }
  }
}
