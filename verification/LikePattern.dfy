/**
 * The `LIKE` condition that finds a key's resends (libs/platform/src/email/email-delivery.service.ts): the root with `%`
 * and `_` escaped, then `:%`. LIKE itself is SQL's, with its default escape character, the backslash.
 */
module LikePattern {
  /** Is `s` like `p`? A backslash makes the next pattern character literal. */
  predicate Like(p: string, s: string)
    decreases |p|, |s|
  {
    if p == "" then s == ""
    else if p[0] == '%' then Like(p[1..], s) || (s != "" && Like(p, s[1..]))
    else if p[0] == '_' then s != "" && Like(p[1..], s[1..])
    else if p[0] == '\\' && |p| >= 2 then s != "" && s[0] == p[1] && Like(p[2..], s[1..])
    else s != "" && s[0] == p[0] && Like(p[1..], s[1..])
  }

  /** `root.replace(/[%_]/g, '\\$&')` */
  function Escape(root: string): string {
    if root == "" then ""
    else (if root[0] == '%' || root[0] == '_' then ['\\', root[0]] else [root[0]]) + Escape(root[1..])
  }

  function ResendPattern(root: string): string {
    Escape(root) + ":%"
  }

  lemma {:induction false} AnythingIsLikePercent(s: string)
    ensures Like("%", s)
  {
    assert "%"[1..] == "";
    if s != "" { AnythingIsLikePercent(s[1..]); }
  }

  lemma PatternStep(root: string)
    requires root != ""
    ensures root[0] == '%' || root[0] == '_' ==>
              ResendPattern(root) == ['\\', root[0]] + ResendPattern(root[1..])
              && ResendPattern(root)[1..] == [root[0]] + ResendPattern(root[1..])
    ensures !(root[0] == '%' || root[0] == '_') ==> ResendPattern(root) == [root[0]] + ResendPattern(root[1..])
  {}

  /** Without a backslash in the root the escaping is exact: what matches is exactly what starts with the root and a colon. */
  lemma {:induction false} MatchesIffPrefix(root: string, key: string)
    requires '\\' !in root
    ensures Like(ResendPattern(root), key) <==> root + ":" <= key
  {
    var p := ResendPattern(root);
    if root == "" {
      assert p == ":%" && p[1..] == "%";
      if key != "" { AnythingIsLikePercent(key[1..]); }
    } else {
      PatternStep(root);
      assert (root + ":")[1..] == root[1..] + ":";
      if key != "" {
        MatchesIffPrefix(root[1..], key[1..]);
        if root[0] == '%' || root[0] == '_' {
          assert p[2..] == ResendPattern(root[1..]);
        } else {
          assert p[1..] == ResendPattern(root[1..]);
        }
        assert root + ":" <= key <==> root[0] == key[0] && root[1..] + ":" <= key[1..];
      }
    }
  }

  /** A shortest string a pattern matches, with an `x` for each `_`. */
  function Fill(p: string): string {
    if p == "" then ""
    else if p[0] == '%' then Fill(p[1..])
    else if p[0] == '_' then "x" + Fill(p[1..])
    else if p[0] == '\\' && |p| >= 2 then [p[1]] + Fill(p[2..])
    else [p[0]] + Fill(p[1..])
  }

  lemma {:induction false} FillMatches(p: string)
    ensures Like(p, Fill(p))
    decreases |p|
  {
    if p != "" {
      if p[0] == '\\' && |p| >= 2 {
        FillMatches(p[2..]);
        assert Fill(p)[1..] == Fill(p[2..]);
      } else {
        FillMatches(p[1..]);
        if p[0] != '%' { assert Fill(p)[1..] == Fill(p[1..]); }
      }
    }
  }

  lemma FillEnd()
    ensures Fill(":%") == ":"
  {
    assert ":%"[1..] == "%" && "%"[1..] == "";
    assert Fill("%") == Fill("") == "";
  }

  /** A backslash swallows the character after it, escape or not. */
  lemma FillAfterBackslash(rest: string)
    ensures rest == "" ==> Fill(ResendPattern("\\" + rest)) == ":"
    ensures rest != "" && rest[0] != '%' && rest[0] != '_' ==>
              Fill(ResendPattern("\\" + rest)) == [rest[0]] + Fill(ResendPattern(rest[1..]))
    ensures rest != "" && rest[0] == '%' ==> Fill(ResendPattern("\\" + rest)) == "\\" + Fill(ResendPattern(rest[1..]))
    ensures rest != "" && rest[0] == '_' ==> Fill(ResendPattern("\\" + rest)) == "\\x" + Fill(ResendPattern(rest[1..]))
  {
    var root := "\\" + rest;
    PatternStep(root);
    assert root[1..] == rest;
    var p := ResendPattern(root);
    assert p == "\\" + ResendPattern(rest);
    if rest == "" {
      assert p == "\\:%" && p[2..] == "%";
      assert "%"[1..] == "";
      assert Fill("%") == Fill("") == "";
    } else {
      PatternStep(rest);
      if rest[0] == '%' || rest[0] == '_' {
        var q := p[2..];
        assert q == [rest[0]] + ResendPattern(rest[1..]);
        assert q[1..] == ResendPattern(rest[1..]);
        assert p[1] == '\\';
        assert Fill(p) == "\\" + Fill(q);
        assert Fill(q) == (if rest[0] == '%' then "" else "x") + Fill(ResendPattern(rest[1..]));
      } else {
        assert p[1] == rest[0] && p[2..] == ResendPattern(rest[1..]);
      }
    }
  }

  lemma FillPlain(root: string)
    requires root != "" && root[0] != '\\'
    ensures Fill(ResendPattern(root)) == [root[0]] + Fill(ResendPattern(root[1..]))
  {
    PatternStep(root);
    var p := ResendPattern(root);
    if root[0] == '%' || root[0] == '_' {
      assert p[2..] == ResendPattern(root[1..]);
    } else {
      assert p[1..] == ResendPattern(root[1..]);
    }
  }

  lemma {:induction false} FillIsShort(root: string)
    ensures |Fill(ResendPattern(root))| <= |root| + 1
    decreases |root|
  {
    if root == "" {
      assert ResendPattern("") == ":%";
      FillEnd();
    } else if root[0] != '\\' {
      FillPlain(root);
      FillIsShort(root[1..]);
    } else {
      assert root == "\\" + root[1..];
      FillAfterBackslash(root[1..]);
      if root[1..] != "" { FillIsShort(root[1..][1..]); }
    }
  }

  lemma {:induction false} BackslashBreaksFill(root: string)
    requires '\\' in root
    ensures !(root + ":" <= Fill(ResendPattern(root)))
    decreases |root|
  {
    var fill := Fill(ResendPattern(root));
    if root[0] != '\\' {
      FillPlain(root);
      BackslashBreaksFill(root[1..]);
      assert (root + ":")[1..] == root[1..] + ":" && fill[1..] == Fill(ResendPattern(root[1..]));
    } else {
      var rest := root[1..];
      assert root == "\\" + rest;
      FillAfterBackslash(rest);
      if rest != "" {
        FillIsShort(rest[1..]);
        if rest[0] == '_' { assert fill[1] == 'x' && (root + ":")[1] == '_'; }
      }
    }
  }

  /** The escaping is exact for a root if and only if the root holds no backslash, which the code does not escape. */
  lemma ExactIffNoBackslash(root: string)
    ensures (forall key: string :: Like(ResendPattern(root), key) <==> root + ":" <= key) <==> '\\' !in root
  {
    if '\\' in root {
      FillMatches(ResendPattern(root));
      BackslashBreaksFill(root);
      var key := Fill(ResendPattern(root));
      assert !(Like(ResendPattern(root), key) <==> root + ":" <= key);
    } else {
      forall key: string ensures Like(ResendPattern(root), key) <==> root + ":" <= key { MatchesIffPrefix(root, key); }
    }
  }

  // ── Which resends a pattern finds, backslash or not ────────────────────────

  /** The pattern ends in a colon, escaped or not, and a percent sign that is not. */
  predicate EndsInColon(p: string) {
    || p == ":%" || p == "\\:%"
    || (|p| > 2 && if p[0] == '\\' then EndsInColon(p[2..]) else EndsInColon(p[1..]))
  }

  lemma {:induction false} ResendPatternEndsInColon(root: string)
    ensures EndsInColon(ResendPattern(root))
    decreases |root|
  {
    if root == "" {
      assert ResendPattern("") == ":%";
    } else if root[0] == '\\' {
      if root[1..] != "" { ResendPatternEndsInColon(root[1..][1..]); }
      BackslashEndsInColon(root[1..]);
      assert root == "\\" + root[1..];
    } else {
      PatternStep(root);
      ResendPatternEndsInColon(root[1..]);
      var p := ResendPattern(root);
      if root[0] == '%' || root[0] == '_' {
        assert p[2..] == ResendPattern(root[1..]);
      } else {
        assert p[1..] == ResendPattern(root[1..]);
      }
    }
  }

  lemma BackslashEndsInColon(rest: string)
    requires rest != "" ==> EndsInColon(ResendPattern(rest[1..]))
    ensures EndsInColon(ResendPattern("\\" + rest))
  {
    var root := "\\" + rest;
    PatternStep(root);
    assert root[1..] == rest;
    var p := ResendPattern(root);
    assert p == "\\" + ResendPattern(rest);
    if rest == "" {
      assert p == "\\:%";
    } else {
      PatternStep(rest);
      if rest[0] == '%' || rest[0] == '_' {
        var q := p[2..];
        assert q == [rest[0]] + ResendPattern(rest[1..]);
        assert q[1..] == ResendPattern(rest[1..]);
      } else {
        assert p[2..] == ResendPattern(rest[1..]);
      }
    }
  }

  lemma {:induction false} LikeNeedsColon(p: string, s: string)
    requires EndsInColon(p) && Like(p, s)
    ensures ':' in s
    decreases |p|, |s|
  {
    if p != ":%" && p != "\\:%" {
      if p[0] == '%' {
        if Like(p[1..], s) { LikeNeedsColon(p[1..], s); } else { LikeNeedsColon(p, s[1..]); }
      } else if p[0] == '\\' {
        LikeNeedsColon(p[2..], s[1..]);
      } else {
        LikeNeedsColon(p[1..], s[1..]);
      }
    }
  }

  /** What is added after a match still matches. */
  lemma {:induction false} LikeGrows(p: string, s: string, t: string)
    requires EndsInColon(p) && Like(p, s)
    ensures Like(p, s + t)
    decreases |p|, |s|
  {
    assert s != "" ==> (s + t)[1..] == s[1..] + t;
    if p == ":%" || p == "\\:%" {
      assert p[|p| - 1..] == "%";
      AnythingIsLikePercent((s + t)[1..]);
    } else if p[0] == '%' {
      if Like(p[1..], s) { LikeGrows(p[1..], s, t); } else { LikeGrows(p, s[1..], t); }
    } else if p[0] == '\\' {
      LikeGrows(p[2..], s[1..], t);
    } else {
      LikeGrows(p[1..], s[1..], t);
    }
  }

  /** … and what holds no colon can be taken away from the end of one. */
  lemma {:induction false} LikeShrinks(p: string, s: string, t: string)
    requires EndsInColon(p) && Like(p, s + t) && ':' !in t
    ensures Like(p, s)
    decreases |p|, |s|
  {
    LikeNeedsColon(p, s + t);
    assert s != "" && (s + t)[1..] == s[1..] + t;
    if p == ":%" || p == "\\:%" {
      assert p[|p| - 1..] == "%";
      AnythingIsLikePercent(s[1..]);
    } else if p[0] == '%' {
      if Like(p[1..], s + t) { LikeShrinks(p[1..], s, t); } else { LikeShrinks(p, s[1..], t); }
    } else if p[0] == '\\' {
      LikeShrinks(p[2..], s[1..], t);
    } else {
      LikeShrinks(p[1..], s[1..], t);
    }
  }

  /** A pattern finds one resend of a key, whatever its number, exactly when it finds the key with a bare colon. */
  lemma FindsResendsIff(root: string, key: string, suffix: string)
    requires ':' !in suffix
    ensures Like(ResendPattern(root), key + ":" + suffix) <==> Like(ResendPattern(root), key + ":")
  {
    ResendPatternEndsInColon(root);
    if Like(ResendPattern(root), key + ":") { LikeGrows(ResendPattern(root), key + ":", suffix); }
    if Like(ResendPattern(root), key + ":" + suffix) { LikeShrinks(ResendPattern(root), key + ":", suffix); }
  }
}
