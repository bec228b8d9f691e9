/** The URL rewrite at bin/index.js:244, `path.replace(/\{(\w+)\}/g, '${parms[$1]}')`:
    every `{name}` placeholder becomes the literal text `${parms[name]}`. */
module PathTemplate {
  import opened Common
  import opened Text

  /** `s` starts with one or more word characters and then `}`. */
  predicate NameThenClose(s: string)
    decreases |s|
  {
    |s| >= 2 && IsWordChar(s[0]) && (s[1] == '}' || NameThenClose(s[1..]))
  }

  /** The length of the name in front of the `}`. */
  function NameLength(s: string): (n: nat)
    requires NameThenClose(s)
    ensures 1 <= n < |s| && s[n] == '}'
    ensures forall i :: 0 <= i < n ==> IsWordChar(s[i])
    decreases |s|
  {
    if s[1] == '}' then 1 else 1 + NameLength(s[1..])
  }

  /** The regular expression `\{(\w+)\}` matches at `i`. */
  predicate PlaceholderAt(s: string, i: nat) {
    i < |s| && s[i] == '{' && NameThenClose(s[i + 1..])
  }

  /** The replacement text once `$1` is substituted. */
  function Interpolation(name: string): string {
    "${parms[" + name + "]}"
  }

  /** The global replace, scanning from the left. */
  function Rewrite(s: string): string
    decreases |s|
  {
    if s == [] then []
    else if PlaceholderAt(s, 0) then
      var n := NameLength(s[1..]);
      Interpolation(s[1..n + 1]) + Rewrite(s[n + 2..])
    else [s[0]] + Rewrite(s[1..])
  }

  /** The name of the last placeholder replaced, which the regular expression
      engine keeps as `RegExp.$1` afterwards; `None` when nothing matched. */
  function LastName(s: string): Option<string>
    decreases |s|
  {
    if s == [] then None
    else if PlaceholderAt(s, 0) then
      var n := NameLength(s[1..]);
      var later := LastName(s[n + 2..]);
      if later.Some? then later else Some(s[1..n + 1])
    else LastName(s[1..])
  }

  // ---------------------------------------------------------------------

  lemma {:induction false} NameThenCloseOf(name: string, rest: string)
    requires name != [] && AllWord(name)
    ensures NameThenClose(name + "}" + rest)
    ensures NameLength(name + "}" + rest) == |name|
    decreases |name|
  {
    var s := name + "}" + rest;
    if |name| > 1 {
      assert s[1..] == name[1..] + "}" + rest;
      NameThenCloseOf(name[1..], rest);
    }
  }

  /** A placeholder is replaced by its interpolation. */
  lemma {:induction false} RewritePlaceholder(name: string, rest: string)
    requires name != [] && AllWord(name)
    ensures Rewrite("{" + name + "}" + rest) == Interpolation(name) + Rewrite(rest)
    ensures LastName("{" + name + "}" + rest) == if LastName(rest).Some? then LastName(rest) else Some(name)
  {
    var s := "{" + name + "}" + rest;
    assert s[1..] == name + "}" + rest;
    NameThenCloseOf(name, rest);
    assert PlaceholderAt(s, 0);
    assert s[1..|name| + 1] == name;
    assert s[|name| + 2..] == rest;
  }

  /** Text without `{` is copied unchanged, and nothing matches in it. */
  lemma {:induction false} RewriteAppendPlain(a: string, b: string)
    requires '{' !in a
    ensures Rewrite(a + b) == a + Rewrite(b)
    ensures LastName(a + b) == LastName(b)
    decreases |a|
  {
    if a != [] {
      assert a[0] in a;
      assert (a + b)[0] == a[0];
      assert (a + b)[1..] == a[1..] + b;
      assert !PlaceholderAt(a + b, 0);
      RewriteAppendPlain(a[1..], b);
      calc {
        Rewrite(a + b);
        [a[0]] + Rewrite(a[1..] + b);
        [a[0]] + (a[1..] + Rewrite(b));
        { assert a == [a[0]] + a[1..]; }
        a + Rewrite(b);
      }
    } else {
      assert a + b == b;
    }
  }

  lemma BraceFree(s: string)
    requires '{' !in s
    ensures Rewrite(s) == s && LastName(s).None?
  {
    RewriteAppendPlain(s, []);
    assert s + [] == s;
  }

  /** The rewrite never shortens the text, and lengthens it where a placeholder matched. */
  lemma {:induction false} RewriteLength(s: string)
    ensures |Rewrite(s)| >= |s|
    ensures LastName(s).Some? ==> |Rewrite(s)| > |s|
    decreases |s|
  {
    if s != [] {
      if PlaceholderAt(s, 0) {
        var n := NameLength(s[1..]);
        RewriteLength(s[n + 2..]);
        assert |Interpolation(s[1..n + 1])| == n + 10;
      } else {
        RewriteLength(s[1..]);
      }
    }
  }

  /** Where nothing matched, the rewrite is the identity. */
  lemma {:induction false} RewriteUnmatched(s: string)
    requires LastName(s).None?
    ensures Rewrite(s) == s
    decreases |s|
  {
    if s != [] {
      assert !PlaceholderAt(s, 0);
      RewriteUnmatched(s[1..]);
      calc {
        Rewrite(s);
        [s[0]] + Rewrite(s[1..]);
        [s[0]] + s[1..];
        s;
      }
    }
  }

  /** The rewrite changes the text exactly when some placeholder matched,
      that is, exactly when the engine's `RegExp.$1` is updated. */
  lemma RewriteChangesIffMatched(s: string)
    ensures |Rewrite(s)| >= |s|
    ensures LastName(s).None? <==> Rewrite(s) == s
  {
    RewriteLength(s);
    if LastName(s).None? {
      RewriteUnmatched(s);
    }
  }

  /** The first character of the rewrite: `$` where a placeholder starts, the original character elsewhere. */
  lemma RewriteHead(s: string)
    requires s != []
    ensures Rewrite(s) != [] && Rewrite(s)[0] == if PlaceholderAt(s, 0) then '$' else s[0]
  {
  }

  /** A word run followed by a character that is neither a word character nor `}` never closes a name. */
  lemma {:induction false} NotNameThenClose(u: string, v: string)
    requires AllWord(u) && v != [] && !IsWordChar(v[0]) && v[0] != '}'
    ensures !NameThenClose(u + v)
    decreases |u|
  {
    if u != [] {
      assert (u + v)[1..] == u[1..] + v;
      NotNameThenClose(u[1..], v);
      if |u| == 1 { assert (u + v)[1] == v[0]; } else { assert (u + v)[1] == u[1]; }
    }
  }

  /** If `s` does not start with `name}`, neither does its rewrite. */
  lemma {:induction false} RewriteKeepsNoClose(s: string)
    requires !NameThenClose(s)
    ensures !NameThenClose(Rewrite(s))
    decreases |s|
  {
    if s != [] && !PlaceholderAt(s, 0) && IsWordChar(s[0]) && |s| >= 2 {
      var r := Rewrite(s[1..]);
      assert Rewrite(s) == [s[0]] + r;
      assert ([s[0]] + r)[1..] == r;
      RewriteKeepsNoClose(s[1..]);
      RewriteHead(s[1..]);
    } else if s != [] && PlaceholderAt(s, 0) {
      RewriteHead(s);
    }
  }

  /** The interpolation text holds no placeholder, even where more text follows. */
  lemma InterpolationClean(name: string, rest: string, i: nat)
    requires AllWord(name)
    requires i < |Interpolation(name)|
    ensures !PlaceholderAt(Interpolation(name) + rest, i)
  {
    var t := Interpolation(name) + rest;
    assert t == "${" + ("parms" + ("[" + name + "]}" + rest));
    if i == 1 {
      assert t[2..] == "parms" + ("[" + name + "]}" + rest);
      assert AllWord("parms");
      NotNameThenClose("parms", "[" + name + "]}" + rest);
    } else if 8 <= i < 8 + |name| {
      assert t[i] == name[i - 8];
    } else {
      assert t[i] != '{';
    }
  }

  /** An interpolation followed by text without placeholders has none. */
  lemma InterpolationThenClean(name: string, r: string)
    requires AllWord(name)
    requires forall i: nat :: !PlaceholderAt(r, i)
    ensures forall i: nat :: !PlaceholderAt(Interpolation(name) + r, i)
  {
    forall i: nat ensures !PlaceholderAt(Interpolation(name) + r, i) {
      var k := |Interpolation(name)|;
      if i < k {
        InterpolationClean(name, r, i);
      } else {
        assert !PlaceholderAt(r, i - k);
        if i < |Interpolation(name) + r| {
          assert (Interpolation(name) + r)[i + 1..] == r[i - k + 1..];
        }
      }
    }
  }

  /** One character followed by text without placeholders has none, unless
      the character is `{` and the text starts with `name}`. */
  lemma CharThenClean(c: char, r: string)
    requires forall i: nat :: !PlaceholderAt(r, i)
    requires c == '{' ==> !NameThenClose(r)
    ensures forall i: nat :: !PlaceholderAt([c] + r, i)
  {
    forall i: nat ensures !PlaceholderAt([c] + r, i) {
      if i == 0 {
        assert ([c] + r)[1..] == r;
      } else {
        assert !PlaceholderAt(r, i - 1);
        if i < 1 + |r| {
          assert ([c] + r)[i + 1..] == r[i..];
        }
      }
    }
  }

  /** No `{name}` placeholder is left after the rewrite. */
  lemma {:induction false} NoPlaceholderLeft(s: string)
    ensures forall i: nat :: !PlaceholderAt(Rewrite(s), i)
    decreases |s|
  {
    if s != [] {
      if PlaceholderAt(s, 0) {
        var n := NameLength(s[1..]);
        NoPlaceholderLeft(s[n + 2..]);
        InterpolationThenClean(s[1..n + 1], Rewrite(s[n + 2..]));
      } else {
        NoPlaceholderLeft(s[1..]);
        if s[0] == '{' {
          RewriteKeepsNoClose(s[1..]);
        }
        CharThenClean(s[0], Rewrite(s[1..]));
      }
    }
  }

  /** A path with one placeholder, such as `/pet/{petId}/uploadImage`, becomes
      `/pet/${parms[petId]}/uploadImage`, and `RegExp.$1` is left at `petId`. */
  lemma {:induction false} SinglePlaceholderPath(pre: string, name: string, post: string)
    requires '{' !in pre && '{' !in post && name != [] && AllWord(name)
    ensures Rewrite(pre + "{" + name + "}" + post) == pre + Interpolation(name) + post
    ensures LastName(pre + "{" + name + "}" + post) == Some(name)
  {
    assert pre + "{" + name + "}" + post == pre + ("{" + name + "}" + post);
    RewriteAppendPlain(pre, "{" + name + "}" + post);
    RewritePlaceholder(name, post);
    BraceFree(post);
  }
}
