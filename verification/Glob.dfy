/**
 * Subscription patterns: the glob-to-regex translation of src/kernel-impl/memory/event-bus.ts,
 * the meaning of the regular expression it produces, and the pattern matching of the Redis bus.
 */
module Globs {
  import opened Wrappers

  // ---------- The translation ----------

  const SPECIALS := ".+^${}()|[]\\"

  /** The first `replace`: a backslash before every special character. */
  function EscapeSpecials(p: string): string {
    if p == "" then ""
    else (if p[0] in SPECIALS then ['\\', p[0]] else [p[0]]) + EscapeSpecials(p[1..])
  }

  /** The second `replace`. */
  function ReplaceStars(t: string): string {
    if t == "" then "" else (if t[0] == '*' then "[^.]*" else [t[0]]) + ReplaceStars(t[1..])
  }

  /** The regular expression between `^` and `$`. */
  function GlobToRegex(p: string): string {
    if p == "*" then ".+" else ReplaceStars(EscapeSpecials(p))
  }

  // ---------- What a regular expression means ----------

  datatype Atom = Just(c: char) | Except(c: char) | Dot

  datatype Term = One(a: Atom) | Many(a: Atom) | Maybe(a: Atom)

  predicate IsLineTerminator(c: char) {
    c == '\n' || c == '\r' || c == '\U{2028}' || c == '\U{2029}'
  }

  predicate Fits(a: Atom, c: char) {
    match a
    case Just(d) => c == d
    case Except(d) => c != d
    case Dot => !IsLineTerminator(c)
  }

  /** The part of the regular expression grammar that can arise: escapes, [^x], dots, quantifiers. */
  function ParseAtom(t: string): Option<(Atom, string)> {
    if t == "" then None
    else if t[0] == '\\' then (if 2 <= |t| && t[1] in SPECIALS then Some((Just(t[1]), t[2..])) else None)
    else if t[0] == '[' then
      (if 4 <= |t| && t[1] == '^' && t[2] !in "\\]" && t[3] == ']' then Some((Except(t[2]), t[4..])) else None)
    else if t[0] == '.' then Some((Dot, t[1..]))
    else if t[0] in SPECIALS || t[0] == '*' || t[0] == '?' then None
    else Some((Just(t[0]), t[1..]))
  }

  /** A `?` after a quantifier makes it lazy, which changes what is tried first but not what is accepted. */
  function SkipLazy(t: string): (r: string)
    ensures |r| <= |t|
  {
    if t != "" && t[0] == '?' then t[1..] else t
  }

  function ParseQuantifier(a: Atom, t: string): (r: (seq<Term>, string))
    ensures |r.1| <= |t|
  {
    if t != "" && t[0] == '*' then ([Many(a)], SkipLazy(t[1..]))
    else if t != "" && t[0] == '+' then ([One(a), Many(a)], SkipLazy(t[1..]))
    else if t != "" && t[0] == '?' then ([Maybe(a)], SkipLazy(t[1..]))
    else ([One(a)], t)
  }

  /** None for a syntax error. */
  function Parse(t: string): Option<seq<Term>>
    decreases |t|
  {
    if t == "" then Some([])
    else
      var atom := ParseAtom(t);
      if atom.None? then None
      else
        var (terms, rest) := ParseQuantifier(atom.value.0, atom.value.1);
        var tail := Parse(rest);
        if tail.None? then None else Some(terms + tail.value)
  }

  /** The whole of s is matched, as between `^` and `$`. */
  predicate Accepts(terms: seq<Term>, s: string)
    decreases |terms|, |s|
  {
    if terms == [] then s == ""
    else
      var here := s != "" && Fits(terms[0].a, s[0]);
      match terms[0]
      case One(_) => here && Accepts(terms[1..], s[1..])
      case Many(_) => Accepts(terms[1..], s) || (here && Accepts(terms, s[1..]))
      case Maybe(_) => Accepts(terms[1..], s) || (here && Accepts(terms[1..], s[1..]))
  }

  /** Does a subscription under the pattern see an event of the type? */
  predicate Subscribed(pattern: string, eventType: string) {
    var terms := Parse(GlobToRegex(pattern));
    terms.Some? && Accepts(terms.value, eventType)
  }

  // ---------- What a glob means ----------

  predicate DotFree(s: string) {
    '.' !in s
  }

  /** A star stands for any run without dots; every other character for itself. */
  ghost predicate GlobMatches(p: string, s: string) {
    if p == "" then s == ""
    else if p[0] == '*' then exists k :: 0 <= k <= |s| && DotFree(s[..k]) && GlobMatches(p[1..], s[k..])
    else s != "" && s[0] == p[0] && GlobMatches(p[1..], s[1..])
  }

  // ---------- Parsing the translation ----------

  /** The text one pattern character becomes. */
  function Piece(c: char): string {
    if c == '*' then "[^.]*" else if c in SPECIALS then ['\\', c] else [c]
  }

  function Pieces(p: string): string {
    if p == "" then "" else Piece(p[0]) + Pieces(p[1..])
  }

  /** The two replacements amount to translating character by character. */
  lemma {:induction false} TranslationIsPiecewise(p: string)
    ensures ReplaceStars(EscapeSpecials(p)) == Pieces(p)
  {
    if p != "" {
      var rest := EscapeSpecials(p[1..]);
      TranslationIsPiecewise(p[1..]);
      if p[0] in SPECIALS {
        KeepsPlain(p[0], rest);
        KeepsPlain('\\', [p[0]] + rest);
        assert ['\\', p[0]] + rest == ['\\'] + ([p[0]] + rest);
        assert ['\\'] + ([p[0]] + ReplaceStars(rest)) == ['\\', p[0]] + ReplaceStars(rest);
      } else {
        assert ([p[0]] + rest)[1..] == rest;
      }
    }
  }

  lemma KeepsPlain(c: char, t: string)
    requires c != '*'
    ensures ReplaceStars([c] + t) == [c] + ReplaceStars(t)
  {
    assert ([c] + t)[1..] == t;
  }

  /** The terms a pattern stands for, read off the pattern itself; None where its regex has a syntax error. */
  function Terms(p: string): Option<seq<Term>>
    decreases |p|
  {
    if p == "" then Some([])
    else if p[0] == '?' then None
    else
      var (term, rest) :=
        if p[0] == '*' then (Many(Except('.')), SkipLazy(p[1..]))
        else if 2 <= |p| && p[1] == '?' then (Maybe(Just(p[0])), SkipLazy(p[2..]))
        else (One(Just(p[0])), p[1..]);
      var tail := Terms(rest);
      if tail.None? then None else Some([term] + tail.value)
  }

  /** The text of a pattern never starts with a quantifier other than a `?` of the pattern. */
  lemma PiecesStart(p: string)
    ensures p == "" ==> Pieces(p) == ""
    ensures p != "" ==> Pieces(p) != "" && Pieces(p)[0] != '*' && Pieces(p)[0] != '+'
    ensures p != "" ==> (Pieces(p)[0] == '?' <==> p[0] == '?')
    ensures SkipLazy(Pieces(p)) == Pieces(SkipLazy(p))
  {
    if p != "" && p[0] == '?' {
      assert Pieces(p) == "?" + Pieces(p[1..]);
      assert Pieces(p)[1..] == Pieces(p[1..]);
    }
  }

  lemma ParseStar(t: string)
    ensures ParseAtom("[^.]*" + t) == Some((Except('.'), "*" + t))
    ensures ParseQuantifier(Except('.'), "*" + t) == ([Many(Except('.'))], SkipLazy(t))
  {
    assert ("[^.]*" + t)[4..] == "*" + t;
    assert ("*" + t)[1..] == t;
  }

  lemma ParseLiteral(c: char, t: string)
    requires c != '*' && c != '?'
    ensures ParseAtom(Piece(c) + t) == Some((Just(c), t))
  {
    if c in SPECIALS {
      assert (['\\', c] + t)[2..] == t;
    } else {
      assert ([c] + t)[1..] == t;
      assert c != '\\' && c != '[' && c != '.';
    }
  }

  lemma {:induction false} ParseOfPieces(p: string)
    ensures Parse(Pieces(p)) == Terms(p)
    decreases |p|
  {
    if p != "" {
      var t := Pieces(p[1..]);
      PiecesStart(p[1..]);
      if p[0] == '*' {
        ParseStar(t);
        ParseOfPieces(SkipLazy(p[1..]));
      } else if p[0] == '?' {
        assert Pieces(p)[0] == '?';
      } else {
        ParseLiteral(p[0], t);
        if 2 <= |p| && p[1] == '?' {
          assert p[1..][1..] == p[2..];
          assert t == "?" + Pieces(p[2..]);
          assert t[1..] == Pieces(p[2..]);
          PiecesStart(p[2..]);
          ParseOfPieces(SkipLazy(p[2..]));
        } else {
          ParseOfPieces(p[1..]);
        }
      }
    }
  }

  lemma SubscribedByTerms(p: string, s: string)
    requires p != "*"
    ensures Subscribed(p, s) <==> Terms(p).Some? && Accepts(Terms(p).value, s)
    ensures Parse(GlobToRegex(p)) == Terms(p)
  {
    TranslationIsPiecewise(p);
    ParseOfPieces(p);
  }

  // ---------- The translation preserves meaning ----------

  lemma {:induction false} ManyTakesRun(terms: seq<Term>, s: string)
    requires terms != [] && terms[0] == Many(Except('.'))
    ensures Accepts(terms, s) <==> exists k :: 0 <= k <= |s| && DotFree(s[..k]) && Accepts(terms[1..], s[k..])
    decreases |s|
  {
    if Accepts(terms[1..], s) {
      assert s[0..] == s && DotFree(s[..0]);
    }
    if s != "" {
      ManyTakesRun(terms, s[1..]);
      if s[0] != '.' && Accepts(terms, s[1..]) {
        var k :| 0 <= k <= |s[1..]| && DotFree(s[1..][..k]) && Accepts(terms[1..], s[1..][k..]);
        assert s[..k + 1] == [s[0]] + s[1..][..k];
        assert s[k + 1..] == s[1..][k..];
      }
      if exists k :: 0 < k <= |s| && DotFree(s[..k]) && Accepts(terms[1..], s[k..]) {
        var k :| 0 < k <= |s| && DotFree(s[..k]) && Accepts(terms[1..], s[k..]);
        assert s[..k][0] == s[0];
        assert s[1..][..k - 1] == s[..k][1..];
        assert s[1..][k - 1..] == s[k..];
      }
    }
    if exists k :: 0 <= k <= |s| && DotFree(s[..k]) && Accepts(terms[1..], s[k..]) {
      var k :| 0 <= k <= |s| && DotFree(s[..k]) && Accepts(terms[1..], s[k..]);
      assert k == 0 ==> s[k..] == s;
    }
  }

  lemma {:induction false} TermsMeanGlob(p: string, s: string)
    requires '?' !in p
    ensures Terms(p).Some? && (Accepts(Terms(p).value, s) <==> GlobMatches(p, s))
    decreases |p|
  {
    if p != "" {
      var rest := p[1..];
      assert rest != "" ==> rest[0] == p[1];
      assert SkipLazy(rest) == rest;
      TermsMeanGlob(rest, s);
      assert Terms(p).value[1..] == Terms(rest).value;
      if p[0] == '*' {
        ManyTakesRun(Terms(p).value, s);
        forall k | 0 <= k <= |s| ensures Accepts(Terms(rest).value, s[k..]) <==> GlobMatches(rest, s[k..]) {
          TermsMeanGlob(rest, s[k..]);
        }
      } else if s != "" {
        TermsMeanGlob(rest, s[1..]);
      }
    }
  }

  /** Without `?`, the regular expression accepts exactly what the glob says. */
  lemma TranslationPreservesMeaning(p: string, s: string)
    requires p != "*" && '?' !in p
    ensures Subscribed(p, s) <==> GlobMatches(p, s)
  {
    SubscribedByTerms(p, s);
    TermsMeanGlob(p, s);
  }

  // ---------- And only without `?` ----------

  function Literals(p: string): nat {
    if p == "" then 0 else (if p[0] == '*' then 0 else 1) + Literals(p[1..])
  }

  lemma {:induction false} GlobNeedsItsLiterals(p: string, s: string)
    requires GlobMatches(p, s)
    ensures Literals(p) <= |s|
    decreases |p|
  {
    if p != "" {
      if p[0] == '*' {
        var k :| 0 <= k <= |s| && DotFree(s[..k]) && GlobMatches(p[1..], s[k..]);
        GlobNeedsItsLiterals(p[1..], s[k..]);
      } else {
        GlobNeedsItsLiterals(p[1..], s[1..]);
      }
    }
  }

  /** The shortest accepted string: what the unquantified terms demand. */
  function Shortest(terms: seq<Term>): string {
    if terms == [] then ""
    else if terms[0].One? && terms[0].a.Just? then [terms[0].a.c] + Shortest(terms[1..])
    else Shortest(terms[1..])
  }

  lemma {:induction false} ShortestAccepted(p: string)
    requires Terms(p).Some?
    ensures Accepts(Terms(p).value, Shortest(Terms(p).value))
    ensures |Shortest(Terms(p).value)| <= Literals(p)
    ensures '?' in p ==> |Shortest(Terms(p).value)| < Literals(p)
    decreases |p|
  {
    if p != "" {
      var terms := Terms(p).value;
      assert p == [p[0]] + p[1..];
      if p[0] == '*' {
        var rest := SkipLazy(p[1..]);
        assert terms[1..] == Terms(rest).value;
        ShortestAccepted(rest);
        LazyLiterals(p[1..]);
      } else if 2 <= |p| && p[1] == '?' {
        assert p[1..] == ['?'] + p[2..];
        assert p[1..][1..] == p[2..];
        var rest := SkipLazy(p[2..]);
        assert terms[1..] == Terms(rest).value;
        ShortestAccepted(rest);
        LazyLiterals(p[2..]);
      } else {
        assert terms[1..] == Terms(p[1..]).value;
        ShortestAccepted(p[1..]);
        assert Shortest(terms)[1..] == Shortest(terms[1..]);
      }
    }
  }

  lemma LazyLiterals(p: string)
    ensures Literals(SkipLazy(p)) <= Literals(p)
    ensures SkipLazy(p) == p || Literals(SkipLazy(p)) < Literals(p)
  {
  }

  /** The translation is sound for a pattern exactly when the pattern has no `?`. */
  lemma TranslatesExactlyWithoutQuestionMark(p: string)
    requires p != "*"
    ensures (Parse(GlobToRegex(p)).Some? && forall s :: Subscribed(p, s) <==> GlobMatches(p, s)) <==> '?' !in p
  {
    if '?' !in p {
      TermsMeanGlob(p, "");
      SubscribedByTerms(p, "");
      forall s ensures Subscribed(p, s) <==> GlobMatches(p, s) {
        TranslationPreservesMeaning(p, s);
      }
    } else {
      SubscribedByTerms(p, "");
      if Terms(p).Some? {
        var s := Shortest(Terms(p).value);
        SubscribedByTerms(p, s);
        ShortestAccepted(p);
        if GlobMatches(p, s) {
          GlobNeedsItsLiterals(p, s);
        }
        assert Subscribed(p, s) && !GlobMatches(p, s);
      }
    }
  }

  // ---------- The lone star and the Redis bus ----------

  predicate SingleLine(s: string) {
    forall c :: c in s ==> !IsLineTerminator(c)
  }

  lemma {:induction false} DotsAcceptLines(s: string)
    ensures Accepts([Many(Dot)], s) <==> SingleLine(s)
  {
    if s != "" {
      assert s == [s[0]] + s[1..];
      DotsAcceptLines(s[1..]);
    }
  }

  /** The lone star subscribes to every non-empty event type on a single line. */
  lemma LoneStar(s: string)
    ensures Subscribed("*", s) <==> s != "" && SingleLine(s)
  {
    assert ".+"[1..] == "+" && "+"[1..] == "";
    assert Parse("") == Some([]);
    assert [One(Dot), Many(Dot)] + [] == [One(Dot), Many(Dot)];
    assert Parse(".+") == Some([One(Dot), Many(Dot)]);
    if s != "" {
      assert s == [s[0]] + s[1..];
      assert [One(Dot), Many(Dot)][1..] == [Many(Dot)];
      DotsAcceptLines(s[1..]);
    }
  }

  /** `matchPattern` of src/kernel-impl/redis/event-bus.ts. */
  predicate RedisMatches(pattern: string, eventType: string) {
    if pattern == "*" then true
    else if 2 <= |pattern| && pattern[|pattern| - 2..] == ".*" then pattern[..|pattern| - 2] + "." <= eventType
    else pattern == eventType
  }

  lemma {:induction false} StarFreeGlob(p: string, s: string)
    requires '*' !in p
    ensures GlobMatches(p, s) <==> p == s
  {
    if p != "" {
      assert p == [p[0]] + p[1..];
      if s != "" {
        assert s == [s[0]] + s[1..];
        StarFreeGlob(p[1..], s[1..]);
      }
    }
  }

  /** On plain names the two buses agree: both compare for equality. */
  lemma BusesAgreeOnNames(p: string, s: string)
    requires '*' !in p && '?' !in p
    ensures Subscribed(p, s) <==> p == s
    ensures RedisMatches(p, s) <==> p == s
  {
    TranslationPreservesMeaning(p, s);
    StarFreeGlob(p, s);
    if 2 <= |p| {
      assert p[|p| - 2..][1] == p[|p| - 1];
    }
  }

  lemma {:induction false} GlobOfPrefix(q: string, s: string)
    requires '*' !in q
    ensures GlobMatches(q + "*", s) <==> q <= s && DotFree(s[|q|..])
  {
    if q == "" {
      assert q + "*" == "*" && "*"[1..] == "";
      if DotFree(s) {
        assert s[..|s|] == s && s[|s|..] == "" && GlobMatches("", s[|s|..]);
      }
      if GlobMatches("*", s) {
        var k :| 0 <= k <= |s| && DotFree(s[..k]) && GlobMatches("", s[k..]);
        assert s[..k] == s;
      }
    } else {
      assert (q + "*")[1..] == q[1..] + "*";
      if s != "" {
        GlobOfPrefix(q[1..], s[1..]);
        assert q == [q[0]] + q[1..] && s == [s[0]] + s[1..];
        assert |q| <= |s| ==> s[|q|..] == s[1..][|q| - 1..];
      }
    }
  }

  /** On `name.*` the in-process bus sees exactly those of the Redis bus's events whose last part has no further dot. */
  lemma BusesDifferOnDepth(q: string, s: string)
    requires '*' !in q && '?' !in q
    ensures Subscribed(q + ".*", s) <==> RedisMatches(q + ".*", s) && DotFree(s[|q| + 1..])
  {
    var p := q + ".*";
    var r := q + ".";
    assert p == r + "*" && p[..|p| - 2] == q && p[|p| - 2..] == ".*";
    TranslationPreservesMeaning(p, s);
    GlobOfPrefix(r, s);
  }

  /** The Redis bus: a lone star matches all, `name.*` what starts with `name.`, any other pattern itself. */
  lemma RedisMatchesExactly(q: string, s: string)
    ensures RedisMatches("*", s)
    ensures RedisMatches(q + ".*", s) <==> exists t :: s == q + "." + t
    ensures q != "*" && (forall r :: q != r + ".*") ==> (RedisMatches(q, s) <==> q == s)
  {
    var p := q + ".*";
    assert p[..|p| - 2] == q && p[|p| - 2..] == ".*" && p != "*";
    if q + "." <= s {
      assert s == q + "." + s[|q| + 1..];
    }
    if 2 <= |q| && q[|q| - 2..] == ".*" {
      assert q == q[..|q| - 2] + ".*";
    }
  }
}
