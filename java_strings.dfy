/** The few java.lang.String operations the request handling relies on:
    `trim()`, `split("\\s+")`, `toUpperCase()` and `equalsIgnoreCase`.
    Letter case is modelled for the ASCII letters only. */
module JavaStrings {

  /** A character of the regular-expression class `\s`: space, tab, line feed,
      vertical tab, form feed and carriage return. */
  predicate IsSpace(c: char) {
    c == ' ' || c == '\t' || c == '\n' || c as int == 11 || c as int == 12 || c == '\r'
  }

  /** A character `trim()` removes from either end: any code point up to U+0020. */
  predicate IsTrimmable(c: char) {
    c as int <= 32
  }

  predicate NoSpace(w: string) {
    forall k :: 0 <= k < |w| ==> !IsSpace(w[k])
  }

  predicate AllSpace(s: string) {
    forall k :: 0 <= k < |s| ==> IsSpace(s[k])
  }

  predicate AllTrimmable(s: string) {
    forall k :: 0 <= k < |s| ==> IsTrimmable(s[k])
  }

  /** No character of `w` is one `trim()` would remove. */
  predicate Printable(w: string) {
    forall k :: 0 <= k < |w| ==> !IsTrimmable(w[k])
  }

  // ---------------------------------------------------------------- trim()

  /** How many trimmable characters start `s`. */
  function LeadingTrimmable(s: string): (n: nat)
    ensures n <= |s|
    ensures forall k :: 0 <= k < n ==> IsTrimmable(s[k])
    ensures n < |s| ==> !IsTrimmable(s[n])
  {
    if s != [] && IsTrimmable(s[0]) then 1 + LeadingTrimmable(s[1..]) else 0
  }

  /** How many trimmable characters end `s`. */
  function TrailingTrimmable(s: string): (n: nat)
    ensures n <= |s|
    ensures forall k :: |s| - n <= k < |s| ==> IsTrimmable(s[k])
    ensures n < |s| ==> !IsTrimmable(s[|s| - 1 - n])
  {
    if s != [] && IsTrimmable(s[|s| - 1]) then 1 + TrailingTrimmable(s[..|s| - 1]) else 0
  }

  /** `String.trim()`: the input without its trimmable prefix and suffix. */
  function Trim(s: string): (r: string)
    ensures |r| <= |s|
    ensures r == [] <==> AllTrimmable(s)
    ensures r != [] ==> !IsTrimmable(r[0]) && !IsTrimmable(r[|r| - 1])
  {
    var front := s[LeadingTrimmable(s)..];
    front[..|front| - TrailingTrimmable(front)]
  }

  /** What `trim()` keeps is a contiguous piece of its input, and everything
      it drops on either side is trimmable. */
  lemma TrimIsSlice(s: string)
    ensures exists i, j :: 0 <= i <= j <= |s| && Trim(s) == s[i..j]
                           && AllTrimmable(s[..i]) && AllTrimmable(s[j..])
  {
    var i := LeadingTrimmable(s);
    var front := s[i..];
    var j := i + |front| - TrailingTrimmable(front);
    assert Trim(s) == s[i..j];
    forall k | 0 <= k < |s[j..]| ensures IsTrimmable(s[j..][k]) {
      assert s[j..][k] == front[j - i + k];
    }
  }

  /** A trimmable prefix ends where the first non-trimmable character starts. */
  lemma {:induction false} LeadingBefore(pre: string, x: string)
    requires AllTrimmable(pre) && x != [] && !IsTrimmable(x[0])
    ensures LeadingTrimmable(pre + x) == |pre|
  {
    if pre != [] {
      assert (pre + x)[0] == pre[0];
      assert (pre + x)[1..] == pre[1..] + x;
      LeadingBefore(pre[1..], x);
    } else {
      assert pre + x == x;
    }
  }

  /** A trimmable suffix starts right after the last non-trimmable character. */
  lemma {:induction false} TrailingAfter(x: string, post: string)
    requires AllTrimmable(post) && x != [] && !IsTrimmable(x[|x| - 1])
    ensures TrailingTrimmable(x + post) == |post|
  {
    var s := x + post;
    if post != [] {
      var init := post[..|post| - 1];
      assert s[|s| - 1] == post[|post| - 1];
      assert s[..|s| - 1] == x + init;
      TrailingAfter(x, init);
    } else {
      assert s == x;
    }
  }

  /** Trimming strips exactly a trimmable margin from text whose own ends
      are not trimmable. */
  lemma TrimAround(pre: string, x: string, post: string)
    requires AllTrimmable(pre) && AllTrimmable(post)
    requires x != [] && !IsTrimmable(x[0]) && !IsTrimmable(x[|x| - 1])
    ensures Trim(pre + x + post) == x
  {
    var s := pre + x + post;
    assert s == pre + (x + post);
    assert (x + post)[0] == x[0];
    LeadingBefore(pre, x + post);
    var front := s[|pre|..];
    assert front == x + post;
    TrailingAfter(x, post);
    assert front[..|front| - |post|] == x;
  }

  // ------------------------------------------------------- split("\\s+")

  /** Length of the run of non-space characters that starts `s`. */
  function WordLen(s: string): (n: nat)
    ensures n <= |s|
    ensures forall k :: 0 <= k < n ==> !IsSpace(s[k])
    ensures n < |s| ==> IsSpace(s[n])
  {
    if s == [] || IsSpace(s[0]) then 0 else 1 + WordLen(s[1..])
  }

  /** The maximal runs of non-space characters of `s`, in order. For a
      non-empty string that neither starts nor ends with a space this is what
      `split("\\s+")` returns; `split` turns the empty string into one empty
      word, which `Tokenize` in the client handler adds itself. Words need a
      separator between them, so there are at most half as many words as
      characters, rounded up. */
  function Words(s: string): (ws: seq<string>)
    ensures 2 * |ws| <= |s| + 1
    ensures s != [] && IsSpace(s[0]) ==> 2 * |ws| <= |s|
    decreases |s|
  {
    if s == [] then []
    else if IsSpace(s[0]) then Words(s[1..])
    else
      var n := WordLen(s);
      [s[..n]] + Words(s[n..])
  }

  /** Every word is non-empty and free of spaces, and there is a word exactly
      when `s` is not all spaces. */
  lemma {:induction false} WordsSpec(s: string)
    ensures forall w :: w in Words(s) ==> w != [] && NoSpace(w)
    ensures Words(s) == [] <==> AllSpace(s)
    decreases |s|
  {
    if s == [] {
    } else if IsSpace(s[0]) {
      WordsSpec(s[1..]);
      if AllSpace(s[1..]) {
        forall k | 0 <= k < |s| ensures IsSpace(s[k]) {
          if k > 0 { assert s[k] == s[1..][k - 1]; }
        }
      }
    } else {
      var n := WordLen(s);
      WordsSpec(s[n..]);
    }
  }

  /** A word is not cut short by what follows it, as long as that starts with
      a space. */
  lemma {:induction false} WordLenBeforeSpace(a: string, t: string)
    requires t == [] || IsSpace(t[0])
    ensures WordLen(a + t) == WordLen(a)
  {
    if a != [] && !IsSpace(a[0]) {
      assert (a + t)[1..] == a[1..] + t;
      WordLenBeforeSpace(a[1..], t);
    }
  }

  /** Leading spaces contribute no word. */
  lemma {:induction false} SkipSpaces(sp: string, b: string)
    requires AllSpace(sp)
    ensures Words(sp + b) == Words(b)
  {
    if sp != [] {
      assert (sp + b)[0] == sp[0];
      assert (sp + b)[1..] == sp[1..] + b;
      SkipSpaces(sp[1..], b);
    } else {
      assert sp + b == b;
    }
  }

  /** Any non-empty run of separators, of any length and of any mix of the
      `\s` characters, splits the text around it the same way. */
  lemma {:induction false} WordsSplit(a: string, sp: string, b: string)
    requires sp != [] && AllSpace(sp)
    ensures Words(a + sp + b) == Words(a) + Words(b)
    decreases |a|
  {
    var s := a + sp + b;
    if a == [] {
      assert s == sp + b;
      SkipSpaces(sp, b);
    } else if IsSpace(a[0]) {
      assert s[1..] == a[1..] + sp + b;
      WordsSplit(a[1..], sp, b);
    } else {
      var n := WordLen(a);
      WordLenBeforeSpace(a, sp + b);
      assert s == a + (sp + b);
      assert s[..n] == a[..n];
      assert s[n..] == a[n..] + sp + b;
      WordsSplit(a[n..], sp, b);
    }
  }

  /** Two printable words around any run of separators are the two words. */
  lemma WordsOfTwo(a: string, sp: string, b: string)
    requires a != [] && Printable(a) && b != [] && Printable(b)
    requires sp != [] && AllSpace(sp)
    ensures Words(a + sp + b) == [a, b]
  {
    WordsSplit(a, sp, b);
    WordOfPrintable(a);
    WordOfPrintable(b);
  }

  /** A non-empty printable string is a single word. */
  lemma WordOfPrintable(w: string)
    requires w != [] && Printable(w)
    ensures Words(w) == [w]
  {
    assert NoSpace(w) by {
      forall k | 0 <= k < |w| ensures !IsSpace(w[k]) { assert !IsTrimmable(w[k]); }
    }
    WordsOfJoin([w]);
    assert Join([w]) == w;
  }

  /** The words joined with single spaces. */
  function Join(ws: seq<string>): string
  {
    if |ws| == 0 then ""
    else if |ws| == 1 then ws[0]
    else ws[0] + " " + Join(ws[1..])
  }

  /** Splitting undoes joining: a request written as space-separated words
      splits back into exactly those words. */
  lemma {:induction false} WordsOfJoin(ws: seq<string>)
    requires forall w :: w in ws ==> w != [] && NoSpace(w)
    ensures Words(Join(ws)) == ws
  {
    if |ws| == 1 {
      var w := ws[0];
      assert w in ws;
      assert w[|w|..] == [];
      assert w[..WordLen(w)] == w;
    } else if |ws| > 1 {
      var w := ws[0];
      assert w in ws;
      var rest := Join(ws[1..]);
      var s := w + " " + rest;
      assert s == Join(ws);
      assert s[|w|] == ' ';
      var n := WordLen(s);
      assert n == |w|;
      assert s[..n] == w;
      assert s[n..] == " " + rest;
      assert (" " + rest)[1..] == rest;
      forall v | v in ws[1..] ensures v != [] && NoSpace(v) {
        assert v in ws;
      }
      WordsOfJoin(ws[1..]);
      assert ws == [w] + ws[1..];
    }
  }

  /** A joined line starts with the first word's first character and ends with
      the last word's last character. */
  lemma {:induction false} JoinEnds(ws: seq<string>)
    requires ws != [] && forall k :: 0 <= k < |ws| ==> ws[k] != []
    ensures |Join(ws)| >= |ws[0]| && Join(ws)[0] == ws[0][0]
    ensures Join(ws)[|Join(ws)| - 1] == ws[|ws| - 1][|ws[|ws| - 1]| - 1]
  {
    if |ws| > 1 {
      var rest := ws[1..];
      forall k | 0 <= k < |rest| ensures rest[k] != [] {
        assert rest[k] == ws[k + 1];
      }
      JoinEnds(rest);
      var tail := Join(rest);
      var full := ws[0] + " " + tail;
      assert Join(ws) == full;
      assert rest[|rest| - 1] == ws[|ws| - 1];
      assert full[0] == ws[0][0];
      assert full[|full| - 1] == tail[|tail| - 1];
    }
  }

  // --------------------------------------------------------- letter case

  function UpperChar(c: char): char {
    if 'a' <= c <= 'z' then (c as int - 32) as char else c
  }

  function LowerChar(c: char): char {
    if 'A' <= c <= 'Z' then (c as int + 32) as char else c
  }

  /** `String.toUpperCase()`, character by character. */
  function ToUpper(s: string): (r: string)
    ensures |r| == |s|
    ensures forall k :: 0 <= k < |s| ==> r[k] == UpperChar(s[k])
  {
    if s == [] then [] else [UpperChar(s[0])] + ToUpper(s[1..])
  }

  /** No ASCII lower-case letter occurs in `s`. */
  predicate IsUpperCase(s: string) {
    forall k :: 0 <= k < |s| ==> !('a' <= s[k] <= 'z')
  }

  /** Upper-casing leaves no lower-case letter behind and is idempotent. */
  lemma ToUpperIsUpperCase(s: string)
    ensures IsUpperCase(ToUpper(s))
    ensures ToUpper(ToUpper(s)) == ToUpper(s)
  {
  }

  /** Upper-casing a string with no lower-case letter changes nothing. */
  lemma {:induction false} UpperFixes(s: string)
    requires IsUpperCase(s)
    ensures ToUpper(s) == s
  {
    if s != [] {
      UpperFixes(s[1..]);
      assert s == [s[0]] + s[1..];
    }
  }

  /** Two characters match under `equalsIgnoreCase`: equal, equal once upper-cased,
      or equal once upper-cased and then lower-cased. */
  predicate CharsMatchIgnoreCase(a: char, b: char) {
    a == b || UpperChar(a) == UpperChar(b) || LowerChar(UpperChar(a)) == LowerChar(UpperChar(b))
  }

  /** `String.equalsIgnoreCase`: same length and matching characters throughout;
      a string always equals itself ignoring case. */
  predicate EqualsIgnoreCase(a: string, b: string)
    ensures a == b ==> EqualsIgnoreCase(a, b)
  {
    |a| == |b| && forall k :: 0 <= k < |a| ==> CharsMatchIgnoreCase(a[k], b[k])
  }

  /** Two characters match ignoring case exactly when their upper cases agree. */
  lemma CharsMatchIffSameUpper(a: char, b: char)
    ensures CharsMatchIgnoreCase(a, b) <==> UpperChar(a) == UpperChar(b)
  {
  }

  /** Comparing ignoring case is comparing the upper-cased strings. */
  lemma EqualsIgnoreCaseIffSameUpper(a: string, b: string)
    ensures EqualsIgnoreCase(a, b) <==> ToUpper(a) == ToUpper(b)
  {
    if EqualsIgnoreCase(a, b) {
      forall k | 0 <= k < |a| ensures ToUpper(a)[k] == ToUpper(b)[k] {
        CharsMatchIffSameUpper(a[k], b[k]);
      }
    }
    if ToUpper(a) == ToUpper(b) {
      forall k | 0 <= k < |a| ensures CharsMatchIgnoreCase(a[k], b[k]) {
        assert ToUpper(a)[k] == ToUpper(b)[k];
        CharsMatchIffSameUpper(a[k], b[k]);
      }
    }
  }
}
