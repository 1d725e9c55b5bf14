/** Escaping raw newlines and tabs inside JSON string literals
    (libvitriol/rebis.py, `_sanitize_json_candidate`). */
module JsonSanitizer {

  /** Where the scanner is: outside literals, inside one, or inside one right after a backslash. */
  datatype Scan = Outside | Inside | Escaped

  const QUOTE := '\"'
  const BACKSLASH := '\\'

  function Next(st: Scan, c: char): Scan {
    match st
    case Outside => if c == QUOTE then Inside else Outside
    case Inside => if c == BACKSLASH then Escaped else if c == QUOTE then Outside else Inside
    case Escaped => Inside
  }

  /** What the sanitizer writes for one character. */
  function Emit(st: Scan, c: char): string {
    if st == Inside && c == '\n' then [BACKSLASH, 'n']
    else if st == Inside && c == '\t' then [BACKSLASH, 't']
    else [c]
  }

  function Sanitize(s: string, st: Scan): string
    decreases |s|
  {
    if s == [] then "" else Emit(st, s[0]) + Sanitize(s[1..], Next(st, s[0]))
  }

  /** The scanner state after reading `s`. */
  function After(s: string, st: Scan): Scan
    decreases |s|
  {
    if s == [] then st else After(s[1..], Next(st, s[0]))
  }

  lemma {:induction false} SanitizeAppend(a: string, b: string, st: Scan)
    ensures Sanitize(a + b, st) == Sanitize(a, st) + Sanitize(b, After(a, st))
    decreases |a|
  {
    if a == [] {
      assert a + b == b;
    } else {
      calc {
        Sanitize(a + b, st);
        { assert (a + b)[0] == a[0] && (a + b)[1..] == a[1..] + b; }
        Emit(st, a[0]) + Sanitize(a[1..] + b, Next(st, a[0]));
        { SanitizeAppend(a[1..], b, Next(st, a[0])); }
        Emit(st, a[0]) + (Sanitize(a[1..], Next(st, a[0])) + Sanitize(b, After(a, st)));
        Sanitize(a, st) + Sanitize(b, After(a, st));
      }
    }
  }

  lemma {:induction false} AfterAppend(a: string, b: string, st: Scan)
    ensures After(a + b, st) == After(b, After(a, st))
    decreases |a|
  {
    if a == [] {
      assert a + b == b;
    } else {
      assert (a + b)[0] == a[0] && (a + b)[1..] == a[1..] + b;
      AfterAppend(a[1..], b, Next(st, a[0]));
    }
  }

  // ---- Simulation between the input and the output ----

  lemma OneChar(c: char, st: Scan)
    ensures After([c], st) == Next(st, c) && Sanitize([c], st) == Emit(st, c)
  {
    assert [c][1..] == [];
    assert Emit(st, c) + "" == Emit(st, c);
  }

  lemma TwoChars(c: char, d: char, st: Scan)
    ensures After([c], st) == Next(st, c) && After([c, d], st) == Next(Next(st, c), d)
    ensures Sanitize([c], st) == Emit(st, c) && Sanitize([c, d], st) == Emit(st, c) + Emit(Next(st, c), d)
  {
    OneChar(c, st);
    OneChar(d, Next(st, c));
    assert [c, d][1..] == [d];
  }

  /** What is written for a character leaves the scanner where the character left it, and is written
      again unchanged. */
  lemma EmitSimulates(st: Scan, c: char)
    ensures After(Emit(st, c), st) == Next(st, c)
    ensures Sanitize(Emit(st, c), st) == Emit(st, c)
  {
    hide Sanitize, After;
    TwoChars(c, c, st);
    TwoChars(BACKSLASH, 'n', st);
    TwoChars(BACKSLASH, 't', st);
  }

  lemma {:induction false} OutputSimulates(s: string, st: Scan)
    ensures After(Sanitize(s, st), st) == After(s, st)
    decreases |s|
  {
    if s != [] {
      hide Emit, Next;
      EmitSimulates(st, s[0]);
      AfterAppend(Emit(st, s[0]), Sanitize(s[1..], Next(st, s[0])), st);
      OutputSimulates(s[1..], Next(st, s[0]));
    }
  }

  /** Sanitizing twice is sanitizing once. */
  lemma {:induction false} Idempotent(s: string, st: Scan)
    ensures Sanitize(Sanitize(s, st), st) == Sanitize(s, st)
    decreases |s|
  {
    if s != [] {
      hide Emit, Next;
      EmitSimulates(st, s[0]);
      SanitizeAppend(Emit(st, s[0]), Sanitize(s[1..], Next(st, s[0])), st);
      Idempotent(s[1..], Next(st, s[0]));
    }
  }

  /** In the output a newline or tab stands inside a literal only right after a backslash. */
  lemma {:induction false} NoRawControl(s: string, st: Scan, i: nat)
    requires i < |Sanitize(s, st)| && After(Sanitize(s, st)[..i], st) == Inside
    ensures Sanitize(s, st)[i] != '\n' && Sanitize(s, st)[i] != '\t'
    decreases |s|
  {
    var e, rest := Emit(st, s[0]), Sanitize(s[1..], Next(st, s[0]));
    var out := Sanitize(s, st);
    assert out == e + rest;
    if i < |e| {
      assert out[i] == e[i];
      if i == 0 {
        assert out[..0] == [];
      }
    } else {
      assert out[..i] == e + rest[..i - |e|];
      AfterAppend(e, rest[..i - |e|], st);
      EmitSimulates(st, s[0]);
      NoRawControl(s[1..], Next(st, s[0]), i - |e|);
    }
  }

  // ---- What a reader makes of it ----

  /** A character outside literals, a character of a literal, or an escape other than newline and tab. */
  datatype Token = Plain(c: char) | Literal(c: char) | Escape(c: char)

  /** A forgiving reader: raw and escaped newlines and tabs of a literal are the same to it. */
  function Tokens(s: string, st: Scan): seq<Token>
    decreases |s|
  {
    if s == [] then [] else Token1(st, s[0]) + Tokens(s[1..], Next(st, s[0]))
  }

  function Token1(st: Scan, c: char): seq<Token> {
    match st
    case Outside => [Plain(c)]
    case Inside => if c == BACKSLASH then [] else [Literal(c)]
    case Escaped => if c == 'n' then [Literal('\n')] else if c == 't' then [Literal('\t')] else [Escape(c)]
  }

  lemma {:induction false} TokensAppend(a: string, b: string, st: Scan)
    ensures Tokens(a + b, st) == Tokens(a, st) + Tokens(b, After(a, st))
    decreases |a|
  {
    if a == [] {
      assert a + b == b;
    } else {
      calc {
        Tokens(a + b, st);
        { assert (a + b)[0] == a[0] && (a + b)[1..] == a[1..] + b; }
        Token1(st, a[0]) + Tokens(a[1..] + b, Next(st, a[0]));
        { TokensAppend(a[1..], b, Next(st, a[0])); }
        Token1(st, a[0]) + (Tokens(a[1..], Next(st, a[0])) + Tokens(b, After(a, st)));
        Tokens(a, st) + Tokens(b, After(a, st));
      }
    }
  }

  lemma EmitTokens(st: Scan, c: char)
    ensures Tokens(Emit(st, c), st) == Token1(st, c)
  {
    var e := Emit(st, c);
    if |e| == 1 {
      assert e[1..] == [];
      assert Token1(st, c) + [] == Token1(st, c);
    } else {
      assert e[1..] == [e[1]] && [e[1]][1..] == [];
      assert Tokens([e[1]], Escaped) == Token1(Escaped, e[1]) + [];
      assert Token1(Inside, BACKSLASH) == [];
    }
  }

  /** Main result: sanitizing keeps the meaning. Everything outside literals is untouched, and every
      literal keeps its characters, a raw newline or tab only being spelled as its escape. */
  lemma {:induction false} KeepsTokens(s: string, st: Scan)
    ensures Tokens(Sanitize(s, st), st) == Tokens(s, st)
    decreases |s|
  {
    if s != [] {
      hide Emit, Next, Token1;
      EmitSimulates(st, s[0]);
      EmitTokens(st, s[0]);
      TokensAppend(Emit(st, s[0]), Sanitize(s[1..], Next(st, s[0])), st);
      KeepsTokens(s[1..], Next(st, s[0]));
    }
  }

  // ---- The loop ----

  method SanitizeJsonCandidate(candidate: string) returns (out: string)
    ensures out == Sanitize(candidate, Outside)
  {
    hide Sanitize, After;
    out := "";
    var inStr, escaped := false, false;
    NothingScanned(candidate);
    for i := 0 to |candidate|
      invariant out == Sanitize(candidate[..i], Outside)
      invariant After(candidate[..i], Outside) == (if escaped then Escaped else if inStr then Inside else Outside)
      invariant escaped ==> inStr
    {
      var ch := candidate[i];
      OneMore(candidate, i);
      if inStr {
        if escaped {
          escaped := false;
        } else if ch == BACKSLASH {
          escaped := true;
        } else if ch == QUOTE {
          inStr := false;
        } else if ch == '\n' {
          out := out + [BACKSLASH, 'n'];
          continue;
        } else if ch == '\t' {
          out := out + [BACKSLASH, 't'];
          continue;
        }
      } else if ch == QUOTE {
        inStr := true;
      }
      out := out + [ch];
    }
    assert candidate[..|candidate|] == candidate;
  }

  lemma NothingScanned(s: string)
    ensures Sanitize(s[..0], Outside) == "" && After(s[..0], Outside) == Outside
  {
  }

  lemma OneMore(s: string, i: nat)
    requires i < |s|
    ensures var st := After(s[..i], Outside);
            && Sanitize(s[..i + 1], Outside) == Sanitize(s[..i], Outside) + Emit(st, s[i])
            && After(s[..i + 1], Outside) == Next(st, s[i])
  {
    hide Sanitize, After;
    assert s[..i + 1] == s[..i] + [s[i]];
    SanitizeAppend(s[..i], [s[i]], Outside);
    AfterAppend(s[..i], [s[i]], Outside);
    TwoChars(s[i], s[i], After(s[..i], Outside));
  }
}
