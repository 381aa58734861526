/** The string operations the app relies on: ECMAScript `trim()`, `toLowerCase()`
    (on ASCII letters) and the "blank after trim" test used by the forms. */
module Text {

  /** The characters `String.prototype.trim` removes: ECMAScript WhiteSpace
      (tab, vertical tab, form feed, space, no-break space, byte order mark and
      the Unicode space separators) and LineTerminator (LF, CR, LS, PS). */
  predicate IsWhitespace(c: char)
  {
    || c == ' ' || ('\t' <= c <= '\r') || c == '\U{00A0}' || c == '\U{FEFF}'
    || c == '\U{1680}' || ('\U{2000}' <= c <= '\U{200A}') || c == '\U{2028}' || c == '\U{2029}'
    || c == '\U{202F}' || c == '\U{205F}' || c == '\U{3000}'
  }

  predicate AllWhitespace(s: string)
  {
    forall i :: 0 <= i < |s| ==> IsWhitespace(s[i])
  }

  /** The number of whitespace characters at the start of `s`. */
  function Leading(s: string): (n: nat)
    ensures n <= |s| && AllWhitespace(s[..n])
    ensures n == |s| || !IsWhitespace(s[n])
  {
    if s != [] && IsWhitespace(s[0]) then
      var m := Leading(s[1..]);
      assert s[..m + 1] == [s[0]] + s[1..][..m];
      1 + m
    else 0
  }

  /** The number of whitespace characters at the end of `s`. */
  function Trailing(s: string): (n: nat)
    ensures n <= |s| && AllWhitespace(s[|s| - n..])
    ensures n == |s| || !IsWhitespace(s[|s| - n - 1])
  {
    if s != [] && IsWhitespace(s[|s| - 1]) then
      var m := Trailing(s[..|s| - 1]);
      SuffixSnoc(s, m);
      1 + m
    else 0
  }

  lemma SuffixSnoc(s: string, m: nat)
    requires m < |s|
    ensures s[|s| - (m + 1)..] == s[..|s| - 1][|s| - 1 - m..] + [s[|s| - 1]]
  {
  }

  function TrimStart(s: string): string
  {
    s[Leading(s)..]
  }

  function TrimEnd(s: string): string
  {
    s[..|s| - Trailing(s)]
  }

  /** `s.trim()`: the whitespace at both ends removed. */
  function Trim(s: string): string
  {
    TrimEnd(TrimStart(s))
  }

  /** Empty, or beginning and ending with a character that is not whitespace. */
  predicate Trimmed(r: string)
  {
    r == [] || (!IsWhitespace(r[0]) && !IsWhitespace(r[|r| - 1]))
  }

  /** What `trim()` keeps is the middle of `s`, starting after its leading
      whitespace. */
  lemma TrimKeepsMiddle(s: string)
    ensures Leading(s) + |Trim(s)| <= |s| && Trim(s) == s[Leading(s)..Leading(s) + |Trim(s)|]
  {
    var t := TrimStart(s);
    var r := Trim(s);
    assert r == TrimEnd(t);
    TrimPieces(s, Leading(s), t, Trailing(t), r);
  }

  /** What `trim()` cuts off on each side is whitespace. */
  lemma TrimCutsWhitespace(s: string)
    ensures Leading(s) + |Trim(s)| <= |s|
    ensures AllWhitespace(s[..Leading(s)]) && AllWhitespace(s[Leading(s) + |Trim(s)|..])
  {
    var t := TrimStart(s);
    var r := Trim(s);
    assert r == TrimEnd(t);
    TrimPieces(s, Leading(s), t, Trailing(t), r);
  }

  /** What `trim()` returns has no whitespace left at either end. */
  lemma TrimIsTrimmed(s: string)
    ensures Trimmed(Trim(s))
  {
    var t := TrimStart(s);
    var r := Trim(s);
    assert r == TrimEnd(t);
    TrimPieces(s, Leading(s), t, Trailing(t), r);
  }

  /** The shape of a trimmed string, from the two counts' own contracts alone. */
  lemma TrimPieces(s: string, n: nat, t: string, k: nat, r: string)
    requires n <= |s| && AllWhitespace(s[..n]) && (n == |s| || !IsWhitespace(s[n]))
    requires t == s[n..]
    requires k <= |t| && AllWhitespace(t[|t| - k..]) && (k == |t| || !IsWhitespace(t[|t| - k - 1]))
    requires r == t[..|t| - k]
    ensures n + |r| <= |s| && r == s[n..n + |r|]
    ensures AllWhitespace(s[n + |r|..])
    ensures Trimmed(r)
  {
    SliceOfSlice(s, t, r, n);
    assert t[|r|..] == t[|t| - k..];
    if r != [] {
      assert r[0] == s[n];
      assert r[|r| - 1] == t[|t| - k - 1];
    }
  }

  lemma SliceOfSlice(s: string, t: string, r: string, k: nat)
    requires k <= |s| && t == s[k..] && |r| <= |t| && r == t[..|r|]
    ensures r == s[k..k + |r|] && s[k + |r|..] == t[|r|..]
  {
  }

  /** `!s.trim()`: nothing but whitespace, which is exactly when the trimmed
      string is empty (`BlankIsTrimmedEmpty`). */
  predicate IsBlank(s: string)
  {
    AllWhitespace(s)
  }

  lemma {:induction false} LeadingAfterWhitespace(ws: string, y: string)
    requires AllWhitespace(ws)
    ensures Leading(ws + y) == |ws| + Leading(y)
  {
    if ws == [] {
      assert ws + y == y;
    } else {
      assert (ws + y)[1..] == ws[1..] + y;
      LeadingAfterWhitespace(ws[1..], y);
    }
  }

  lemma {:induction false} TrailingBeforeWhitespace(y: string, ws: string)
    requires AllWhitespace(ws)
    ensures Trailing(y + ws) == |ws| + Trailing(y)
  {
    if ws == [] {
      assert y + ws == y;
    } else {
      var n := |ws| - 1;
      assert (y + ws)[..|y + ws| - 1] == y + ws[..n];
      TrailingBeforeWhitespace(y, ws[..n]);
    }
  }

  lemma {:induction false} LeadingOfConcat(x: string, w: string)
    ensures Leading(x + w) == if AllWhitespace(x) then |x| + Leading(w) else Leading(x)
  {
    if x == [] {
      assert x + w == w;
    } else if IsWhitespace(x[0]) {
      assert (x + w)[1..] == x[1..] + w;
      LeadingOfConcat(x[1..], w);
      assert AllWhitespace(x) <==> AllWhitespace(x[1..]) by {
        if AllWhitespace(x[1..]) {
          forall i | 0 <= i < |x| ensures IsWhitespace(x[i]) {
            if i > 0 { assert x[i] == x[1..][i - 1]; }
          }
        }
      }
    } else {
      assert !AllWhitespace(x);
    }
  }

  lemma TrimStartAfterWhitespace(ws: string, y: string)
    requires AllWhitespace(ws)
    ensures TrimStart(ws + y) == TrimStart(y)
  {
    LeadingAfterWhitespace(ws, y);
    assert (ws + y)[|ws|..] == y;
  }

  lemma TrimEndBeforeWhitespace(y: string, ws: string)
    requires AllWhitespace(ws)
    ensures TrimEnd(y + ws) == TrimEnd(y)
  {
    TrailingBeforeWhitespace(y, ws);
    assert (y + ws)[..|y|] == y;
  }

  lemma TrimStartOfConcat(x: string, w: string)
    requires AllWhitespace(w)
    ensures TrimStart(x + w) == if AllWhitespace(x) then [] else TrimStart(x) + w
  {
    LeadingOfConcat(x, w);
    if AllWhitespace(x) {
      LeadingAfterWhitespace(w, []);
      assert w + [] == w;
    } else {
      assert (x + w)[Leading(x)..] == x[Leading(x)..] + w;
    }
  }

  /** Surrounding whitespace never changes what `trim()` returns. */
  lemma TrimIgnoresSurroundingWhitespace(ws1: string, x: string, ws2: string)
    requires AllWhitespace(ws1) && AllWhitespace(ws2)
    ensures Trim(ws1 + x + ws2) == Trim(x)
  {
    assert ws1 + x + ws2 == ws1 + (x + ws2);
    TrimStartAfterWhitespace(ws1, x + ws2);
    TrimStartOfConcat(x, ws2);
    if AllWhitespace(x) {
      TrimStartOfConcat(x, []);
      assert x + [] == x;
    } else {
      TrimEndBeforeWhitespace(TrimStart(x), ws2);
    }
  }

  /** Trimming leaves nothing exactly when every character is whitespace. */
  lemma BlankIsTrimmedEmpty(s: string)
    ensures IsBlank(s) <==> Trim(s) == []
  {
    if AllWhitespace(s) {
      LeadingAfterWhitespace(s, []);
      assert s + [] == s;
    }
    if Trim(s) == [] {
      TrimCutsWhitespace(s);
      assert s[..Leading(s)] + s[Leading(s)..] == s;
    }
  }

  /** `toLowerCase()` on one character, for the ASCII letters. */
  function LowerChar(c: char): (r: char)
    ensures 'A' <= c <= 'Z' ==> 'a' <= r <= 'z' && r as int == c as int + 32
    ensures !('A' <= c <= 'Z') ==> r == c
  {
    if 'A' <= c <= 'Z' then (c as int + 32) as char else c
  }

  /** `s.toLowerCase()`. */
  function Lower(s: string): (r: string)
    ensures |r| == |s|
    ensures forall i :: 0 <= i < |s| ==> r[i] == LowerChar(s[i])
  {
    seq(|s|, i requires 0 <= i < |s| => LowerChar(s[i]))
  }

  /** Two strings that differ at most in the case of their letters. */
  predicate SameIgnoringCase(a: string, b: string)
  {
    |a| == |b| && forall i :: 0 <= i < |a| ==> LowerChar(a[i]) == LowerChar(b[i])
  }

  lemma LowerConcat(a: string, b: string)
    ensures Lower(a + b) == Lower(a) + Lower(b)
  {
  }

  lemma LowerKeepsWhitespace(ws: string)
    requires AllWhitespace(ws)
    ensures Lower(ws) == ws
  {
  }

  lemma LowerIgnoresCase(a: string, b: string)
    requires SameIgnoringCase(a, b)
    ensures Lower(a) == Lower(b)
  {
  }
}
