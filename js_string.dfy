/** Optional values: the `undefined`/`null` cases of the bot's message fields. */
module Options {
  datatype Option<+T> = None | Some(value: T)
}

/** The JavaScript string operations the bot uses (`startsWith`, `endsWith`,
    `trim`, `toLowerCase`, `split(sep)[0]`), over strings as sequences of
    characters. */
module JsString {

  type Str = seq<char>

  /** `s.startsWith(p)` */
  predicate StartsWith(s: Str, p: Str) {
    |p| <= |s| && forall i :: 0 <= i < |p| ==> s[i] == p[i]
  }

  /** `s.endsWith(p)` */
  predicate EndsWith(s: Str, p: Str) {
    |p| <= |s| && s[|s| - |p|..] == p
  }

  /** A prefix of a prefix is a prefix. */
  lemma StartsWithTrans(s: Str, p: Str, q: Str)
    requires StartsWith(s, p) && StartsWith(p, q)
    ensures StartsWith(s, q)
  {
  }

  /** Two literals that disagree at position `i` cannot both start `s`, and
      `s` cannot be the second one. */
  lemma PrefixesExclusive(s: Str, p: Str, q: Str, i: nat)
    requires i < |p| && i < |q| && p[i] != q[i]
    requires StartsWith(s, p)
    ensures !StartsWith(s, q) && s != q
  {
  }

  /** The characters `String.prototype.trim` removes: the ECMAScript
      WhiteSpace production (tab, vertical tab, form feed, no-break space,
      byte order mark and every space separator) and the LineTerminator
      production (line feed, carriage return, line and paragraph separator). */
  predicate IsWhitespace(c: char) {
    c == '\t' || c == '\n' || c == '\U{000B}' || c == '\U{000C}' || c == '\r'
    || c == ' ' || c == '\U{00A0}' || c == '\U{1680}'
    || ('\U{2000}' <= c <= '\U{200A}')
    || c == '\U{2028}' || c == '\U{2029}' || c == '\U{202F}' || c == '\U{205F}'
    || c == '\U{3000}' || c == '\U{FEFF}'
  }

  predicate AllWhitespace(s: Str) {
    forall i :: 0 <= i < |s| ==> IsWhitespace(s[i])
  }

  /** Neither end of `s` is white space. */
  predicate Trimmed(s: Str) {
    s == [] || (!IsWhitespace(s[0]) && !IsWhitespace(s[|s| - 1]))
  }

  /** Removing leading white space leaves the suffix that starts at the first
      other character. */
  function TrimStart(s: Str): (r: Str)
    ensures |r| <= |s| && r == s[|s| - |r|..]
    ensures r == [] || !IsWhitespace(r[0])
    ensures AllWhitespace(s[..|s| - |r|])
  {
    if s != [] && IsWhitespace(s[0]) then TrimStart(s[1..]) else s
  }

  /** Removing trailing white space leaves the prefix that ends at the last
      other character. */
  function TrimEnd(s: Str): (r: Str)
    ensures |r| <= |s| && r == s[..|r|]
    ensures r == [] || !IsWhitespace(r[|r| - 1])
    ensures AllWhitespace(s[|r|..])
  {
    if s != [] && IsWhitespace(s[|s| - 1]) then TrimEnd(s[..|s| - 1]) else s
  }

  /** `s.trim()`: the result has white space at neither end, and every one
      of its characters comes from `s`. */
  function Trim(s: Str): (r: Str)
    ensures |r| <= |s| && Trimmed(r)
    ensures forall c :: c in r ==> c in s
  {
    var t := TrimStart(s);
    var r := TrimEnd(t);
    assert forall c :: c in r ==> c in t by {
      forall c | c in r ensures c in t {
        var k :| 0 <= k < |r| && r[k] == c;
        assert t[k] == c;
      }
    }
    assert forall c :: c in t ==> c in s by {
      forall c | c in t ensures c in s {
        var k :| 0 <= k < |t| && t[k] == c;
        assert s[|s| - |t| + k] == c;
      }
    }
    r
  }

  lemma {:induction false} TrimStartSkips(pre: Str, rest: Str)
    requires AllWhitespace(pre)
    ensures TrimStart(pre + rest) == TrimStart(rest)
  {
    if pre != [] {
      var s := pre + rest;
      assert s[0] == pre[0];
      assert s[1..] == pre[1..] + rest;
      assert TrimStart(s) == TrimStart(s[1..]);
      assert AllWhitespace(pre[1..]) by {
        forall i | 0 <= i < |pre[1..]| ensures IsWhitespace(pre[1..][i]) {
          assert pre[1..][i] == pre[i + 1];
        }
      }
      TrimStartSkips(pre[1..], rest);
    } else {
      assert pre + rest == rest;
    }
  }

  lemma {:induction false} TrimEndSkips(rest: Str, post: Str)
    requires AllWhitespace(post)
    ensures TrimEnd(rest + post) == TrimEnd(rest)
  {
    if post != [] {
      var n := |post| - 1;
      assert (rest + post)[|rest + post| - 1] == post[n];
      assert (rest + post)[..|rest + post| - 1] == rest + post[..n];
      TrimEndSkips(rest, post[..n]);
    } else {
      assert rest + post == rest;
    }
  }

  /** `trim` is determined by the decomposition of its input: white space,
      then a core with white space at neither end, then white space again
      gives exactly the core. */
  lemma TrimPadded(pre: Str, core: Str, post: Str)
    requires AllWhitespace(pre) && AllWhitespace(post) && Trimmed(core)
    ensures Trim(pre + core + post) == core
  {
    assert pre + core + post == pre + (core + post);
    TrimStartSkips(pre, core + post);
    if core == [] {
      assert core + post == [] + post;
      TrimStartSkips(post, []);
      assert post + [] == post;
    } else {
      assert (core + post)[0] == core[0];
      assert TrimStart(core + post) == core + post;
      TrimEndSkips(core, post);
    }
  }

  /** `trim` is idempotent; on text with no white space at either end it is
      the identity. */
  lemma TrimIdempotent(s: Str)
    ensures Trimmed(s) ==> Trim(s) == s
    ensures Trim(Trim(s)) == Trim(s)
  {
    if Trimmed(s) {
      TrimPadded([], s, []);
      assert [] + s + [] == s;
    }
    var t := Trim(s);
    TrimPadded([], t, []);
    assert [] + t + [] == t;
  }

  /** The upper-case letters whose lower case the model knows: ASCII `A`-`Z`
      and the Latin-1 letters U+00C0-U+00DE other than U+00D7 (multiplication
      sign); each lower-cases to the code point 32 above it. */
  predicate IsUpper(c: char) {
    ('A' <= c <= 'Z') || ('\U{00C0}' <= c <= '\U{00DE}' && c != '\U{00D7}')
  }

  /** The lower-case counterparts of `IsUpper`. */
  predicate IsLower(c: char) {
    ('a' <= c <= 'z') || ('\U{00E0}' <= c <= '\U{00FE}' && c != '\U{00F7}')
  }

  /** A lower-case letter is not white space. */
  lemma LowerIsNotWhitespace(c: char)
    requires IsLower(c)
    ensures !IsWhitespace(c)
  {
  }

  function LowerChar(c: char): (d: char)
    ensures !IsUpper(d)
    ensures !IsUpper(c) ==> d == c
    ensures IsUpper(c) ==> IsLower(d) && d as int == c as int + 32
  {
    if IsUpper(c) then (c as int + 32) as char else c
  }

  /** `s.toLowerCase()`: same length, no upper-case letter left, every
      upper-case letter replaced by its lower-case form (32 code points up in
      ASCII and Latin-1), and every other character kept in place. */
  function LowerCase(s: Str): (r: Str)
    ensures |r| == |s|
    ensures forall i :: 0 <= i < |r| ==> !IsUpper(r[i])
    ensures forall i :: 0 <= i < |s| && !IsUpper(s[i]) ==> r[i] == s[i]
    ensures forall i :: 0 <= i < |s| && IsUpper(s[i]) ==> IsLower(r[i]) && r[i] as int == s[i] as int + 32
  {
    seq(|s|, i requires 0 <= i < |s| => LowerChar(s[i]))
  }

  /** Lower-casing twice is lower-casing once. */
  lemma LowerCaseIdempotent(s: Str)
    ensures LowerCase(LowerCase(s)) == LowerCase(s)
  {
  }

  /** `s.split(sep)[0]`: the text before the first `sep`, or all of `s` when
      `sep` does not occur. */
  function SplitHead(s: Str, sep: char): (r: Str)
    ensures sep !in r
    ensures StartsWith(s, r)
    ensures |r| == |s| || s[|r|] == sep
  {
    if s == [] then []
    else if s[0] == sep then []
    else [s[0]] + SplitHead(s[1..], sep)
  }

  /** Splitting `user + sep + rest` gives back `user` when it holds no `sep`. */
  lemma {:induction false} SplitHeadOfJoin(user: Str, sep: char, rest: Str)
    requires sep !in user
    ensures SplitHead(user + [sep] + rest, sep) == user
  {
    var s := user + [sep] + rest;
    if user == [] {
      assert s[0] == sep;
    } else {
      assert s[0] == user[0] && user[0] != sep;
      assert s[1..] == user[1..] + [sep] + rest;
      SplitHeadOfJoin(user[1..], sep, rest);
      assert [user[0]] + user[1..] == user;
    }
  }
}
