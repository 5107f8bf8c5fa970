/** Base64 made safe for a URL: three characters are spelled out as tokens, and the tokens
    are turned back, one kind after the other. The patterns the decoder is written with
    carry a backslash before their first letter, which a regular expression without the
    unicode flag reads as the letter itself. */
module TokenSubstitution {

  const PLUS: string := "xMl3Jk"
  const SLASH: string := "Por21Ld"
  const EQUALS: string := "Ml32"

  datatype Mode = Encrypt | Decrypt | Other

  /** Every occurrence of a character spelled out. */
  function SpellOut(s: string, c: char, token: string): string {
    if s == [] then [] else (if s[0] == c then token else [s[0]]) + SpellOut(s[1..], c, token)
  }

  /** Every occurrence of a token collapsed, scanning left to right without overlap. */
  function Collapse(s: string, token: string, c: char): string
    requires token != []
  {
    if s == [] then []
    else if token <= s then [c] + Collapse(s[|token|..], token, c)
    else [s[0]] + Collapse(s[1..], token, c)
  }

  function Encode(s: string): string {
    SpellOut(SpellOut(SpellOut(s, '+', PLUS), '/', SLASH), '=', EQUALS)
  }

  function Decode(s: string): string {
    Collapse(Collapse(Collapse(s, PLUS, '+'), SLASH, '/'), EQUALS, '=')
  }

  predicate White(c: char) { c == ' ' || '\t' <= c <= '\r' }

  predicate Blank(s: string) { forall c | c in s :: White(c) }

  function ReplaceSpecialCharacter(s: string, mode: Mode): string {
    if Blank(s) then s
    else match mode
      case Encrypt => Encode(s)
      case Decrypt => Decode(s)
      case Other => s
  }

  // ---------------------------------------------------------------- one pass

  /** The tokens in force, by the character each stands for. */
  type Code = map<char, string>

  const ALL: Code := map['+' := PLUS, '/' := SLASH, '=' := EQUALS]

  /** Tokens hold no character that is itself spelled out. */
  predicate Sub(code: Code) {
    && code.Keys <= {'+', '/', '='}
    && forall c | c in code :: code[c] == ALL[c]
  }

  function Spelled(s: string, code: Code): string {
    if s == [] then [] else (if s[0] in code then code[s[0]] else [s[0]]) + Spelled(s[1..], code)
  }

  lemma {:induction false} SpellOutAppend(a: string, b: string, c: char, token: string)
    ensures SpellOut(a + b, c, token) == SpellOut(a, c, token) + SpellOut(b, c, token)
  {
    if a == [] {
      assert a + b == b;
    } else {
      assert (a + b)[1..] == a[1..] + b;
      SpellOutAppend(a[1..], b, c, token);
    }
  }

  lemma {:induction false} SpellOutKeeps(s: string, c: char, token: string)
    requires c !in s
    ensures SpellOut(s, c, token) == s
  {
    if s != [] {
      SpellOutKeeps(s[1..], c, token);
    }
  }

  /** Spelling out one more character on top of a code extends the code. */
  lemma {:induction false} SpellOutExtends(s: string, code: Code, c: char)
    requires Sub(code) && c in ALL && c !in code
    ensures SpellOut(Spelled(s, code), c, ALL[c]) == Spelled(s, code[c := ALL[c]])
  {
    if s != [] {
      var head, rest := if s[0] in code then code[s[0]] else [s[0]], Spelled(s[1..], code);
      assert Spelled(s, code) == head + rest;
      SpellOutAppend(head, rest, c, ALL[c]);
      SpellOutExtends(s[1..], code, c);
      SpellOutHead(s[0], code, c);
    }
  }

  lemma SpellOutHead(x: char, code: Code, c: char)
    requires Sub(code) && c in ALL && c !in code
    ensures var more := code[c := ALL[c]];
            SpellOut(if x in code then code[x] else [x], c, ALL[c]) == if x in more then more[x] else [x]
  {
    if x in code {
      TokensAreOrdinary(x, c);
      SpellOutKeeps(ALL[x], c, ALL[c]);
    } else {
      SpellOutOne(x, c, ALL[c]);
    }
  }

  lemma TokensAreOrdinary(x: char, c: char)
    requires x in ALL && c in ALL
    ensures c !in ALL[x]
  {}

  lemma SpellOutOne(x: char, c: char, token: string)
    ensures SpellOut([x], c, token) == if x == c then token else [x]
  {
    assert [x][1..] == [];
    assert token + [] == token;
  }

  lemma {:induction false} SpelledByNothing(s: string)
    ensures Spelled(s, map[]) == s
  {
    if s != [] {
      SpelledByNothing(s[1..]);
    }
  }

  lemma EncodeIsSpelled(s: string)
    ensures Encode(s) == Spelled(s, ALL)
  {
    SpelledByNothing(s);
    SpellOutExtends(s, map[], '+');
    SpellOutExtends(s, map['+' := PLUS], '/');
    SpellOutExtends(s, map['+' := PLUS, '/' := SLASH], '=');
    assert map['+' := PLUS, '/' := SLASH]['=' := EQUALS] == ALL;
  }

  /** Encoding goes character by character. */
  lemma EncodesEach(c: char, s: string)
    ensures Encode([c] + s) ==
            (if c == '+' then "xMl3Jk" else if c == '/' then "Por21Ld" else if c == '=' then "Ml32" else [c]) + Encode(s)
    ensures Encode([]) == []
  {
    EncodeIsSpelled([c] + s);
    EncodeIsSpelled(s);
    assert ([c] + s)[1..] == s;
  }

  /** What is sent holds none of the three characters, and a text in no mode is left alone. */
  lemma {:induction false} EncodedIsSafe(s: string)
    ensures var sent := ReplaceSpecialCharacter(s, Encrypt); '+' !in sent && '/' !in sent && '=' !in sent
    ensures ReplaceSpecialCharacter(s, Other) == s
  {
    EncodeIsSpelled(s);
    SpelledIsSafe(s);
  }

  lemma {:induction false} SpelledIsSafe(s: string)
    ensures var sent := Spelled(s, ALL); '+' !in sent && '/' !in sent && '=' !in sent
  {
    if s != [] {
      SpelledIsSafe(s[1..]);
    }
  }

  // ---------------------------------------------------------------- no straddling occurrence

  /** The two differ within the length of the shorter, so neither begins with the other
      whatever follows them. */
  predicate Clash(a: string, b: string) { exists k :: 0 <= k < |a| && k < |b| && a[k] != b[k] }

  lemma ClashDecides(a: string, b: string, rest: string)
    requires Clash(a, b)
    ensures !(b <= a + rest) && !(a + rest <= b)
  {
    var k :| 0 <= k < |a| && k < |b| && a[k] != b[k];
    assert (a + rest)[k] == a[k];
  }

  /** No token overlaps the start of a token, its own copies included. */
  lemma TokensNeverOverlap(c: char, d: char, q: nat)
    requires c in ALL && d in ALL && q < |ALL[c]| && (q > 0 || c != d)
    ensures Clash(ALL[c][q..], ALL[d])
  {
    var rest, token := ALL[c][q..], ALL[d];
    if c == '+' && d == '=' && q == 1 {
      assert rest[3] == 'J' && token[3] == '2';
    } else {
      assert rest[0] == ALL[c][q];
      assert rest[0] != token[0];
    }
  }

  /** If a token begins the spelling of a text whose first character is not spelled out,
      it begins the text: no spelled-out character can supply a part of it. */
  lemma {:induction false} TokenIsLiteral(s: string, code: Code, c: char, q: nat)
    requires Sub(code) && c in ALL && q <= |ALL[c]|
    requires ALL[c][q..] <= Spelled(s, code)
    requires q == 0 ==> s == [] || s[0] !in code
    ensures ALL[c][q..] <= s
    decreases |ALL[c]| - q
  {
    var token := ALL[c];
    if q < |token| {
      assert s != [];
      if s[0] in code {
        TokensNeverOverlap(c, s[0], q);
        ClashDecides(code[s[0]], token[q..], Spelled(s[1..], code)) by {
          var k :| 0 <= k < |token[q..]| && k < |ALL[s[0]]| && token[q..][k] != ALL[s[0]][k];
          assert Clash(code[s[0]], token[q..]);
        }
      } else {
        assert Spelled(s, code)[0] == s[0] && Spelled(s, code)[1..] == Spelled(s[1..], code);
        assert token[q..][1..] == token[q + 1..];
        TokenIsLiteral(s[1..], code, c, q + 1);
      }
    }
  }

  /** Text that clashes with a token at every position is not disturbed by collapsing it. */
  lemma {:induction false} CollapsePasses(part: string, rest: string, token: string, c: char)
    requires token != [] && forall q | 0 <= q < |part| :: Clash(part[q..], token)
    ensures Collapse(part + rest, token, c) == part + Collapse(rest, token, c)
  {
    hide Clash, Collapse;
    if part == [] {
      assert part + rest == rest;
    } else {
      assert part[0..] == part;
      ClashDecides(part, token, rest);
      assert forall q | 0 <= q < |part[1..]| :: part[1..][q..] == part[q + 1..];
      CollapsePasses(part[1..], rest, token, c);
      CollapseSkips(part + rest, token, c);
      assert (part + rest)[1..] == part[1..] + rest;
      assert part == [part[0]] + part[1..];
    }
  }

  lemma CollapseSkips(s: string, token: string, c: char)
    requires token != [] && s != [] && !(token <= s)
    ensures Collapse(s, token, c) == [s[0]] + Collapse(s[1..], token, c)
  {}

  lemma SpelledAppend(a: string, b: string, code: Code)
    requires forall c | c in a :: c !in code
    ensures Spelled(a + b, code) == a + Spelled(b, code)
    decreases |a|
  {
    if a == [] {
      assert a + b == b;
    } else {
      assert (a + b)[1..] == a[1..] + b;
      SpelledAppend(a[1..], b, code);
    }
  }

  /** Collapsing a token commutes with the code, and takes its character out of the code. */
  lemma {:induction false} CollapseCommutes(s: string, code: Code, c: char)
    requires Sub(code) && c in code
    ensures Collapse(Spelled(s, code), ALL[c], c) == Spelled(Collapse(s, ALL[c], c), code - {c})
    decreases |s|
  {
    var token, less := ALL[c], code - {c};
    if s == [] {
    } else if token <= s {
      var rest := s[|token|..];
      assert s == token + rest;
      SpelledAppend(token, rest, code);
      assert (token + Spelled(rest, code))[|token|..] == Spelled(rest, code);
      CollapseCommutes(rest, code, c);
      HeadKept(c, Collapse(rest, token, c), less);
    } else {
      var rest := s[1..];
      CollapseCommutes(rest, code, c);
      if s[0] == c {
        assert (token + Spelled(rest, code))[|token|..] == Spelled(rest, code);
        HeadKept(c, Collapse(rest, token, c), less);
      } else if s[0] in code {
        forall q | 0 <= q < |ALL[s[0]]| ensures Clash(ALL[s[0]][q..], token) {
          TokensNeverOverlap(s[0], c, q);
        }
        CollapsePasses(ALL[s[0]], Spelled(rest, code), token, c);
        assert ([s[0]] + Collapse(rest, token, c))[1..] == Collapse(rest, token, c);
      } else {
        if token <= Spelled(s, code) {
          assert token[0..] == token;
          TokenIsLiteral(s, code, c, 0);
        }
        assert Spelled(s, code)[1..] == Spelled(rest, code);
        HeadKept(s[0], Collapse(rest, token, c), less);
      }
    }
  }

  lemma HeadKept(c: char, rest: string, code: Code)
    requires c !in code
    ensures Spelled([c] + rest, code) == [c] + Spelled(rest, code)
  {
    assert ([c] + rest)[1..] == rest;
  }

  // ---------------------------------------------------------------- the round trip

  predicate Contains(s: string, token: string) { exists i :: 0 <= i <= |s| && token <= s[i..] }

  /** Decoding undoes encoding as far as decoding leaves the text alone: what comes back is
      the decoding of the original. */
  lemma DecodeAfterEncode(s: string)
    ensures Decode(Encode(s)) == Decode(s)
  {
    EncodeIsSpelled(s);
    var two: Code := map['/' := SLASH, '=' := EQUALS];
    var one: Code := map['=' := EQUALS];
    assert ALL - {'+'} == two && two - {'/'} == one && one - {'='} == map[];
    var s1 := Collapse(s, PLUS, '+');
    var s2 := Collapse(s1, SLASH, '/');
    CollapseCommutes(s, ALL, '+');
    CollapseCommutes(s1, two, '/');
    CollapseCommutes(s2, one, '=');
    SpelledByNothing(Collapse(s2, EQUALS, '='));
  }

  /** Collapsing keeps a text exactly when the token is nowhere in it, and shortens it otherwise. */
  lemma {:induction false} CollapseKeepsIff(s: string, token: string, c: char)
    requires |token| > 1
    ensures Contains(s, token) ==> |Collapse(s, token, c)| < |s|
    ensures !Contains(s, token) ==> Collapse(s, token, c) == s
    ensures |Collapse(s, token, c)| <= |s|
    decreases |s|
  {
    if s == [] {
      assert forall i | 0 <= i <= |s| :: |s[i..]| == 0;
    } else if token <= s {
      assert s[0..] == s;
      CollapseKeepsIff(s[|token|..], token, c);
    } else {
      CollapseKeepsIff(s[1..], token, c);
      assert forall i | 0 < i <= |s| :: s[i..] == s[1..][i - 1..];
      assert s[0..] == s;
      ContainsLater(s, token);
    }
  }

  lemma ContainsLater(s: string, token: string)
    requires s != [] && !(token <= s)
    ensures Contains(s, token) <==> Contains(s[1..], token)
  {
    assert s[0..] == s;
    assert forall i | 0 < i <= |s| :: s[i..] == s[1..][i - 1..];
    if Contains(s[1..], token) {
      var i :| 0 <= i <= |s[1..]| && token <= s[1..][i..];
      assert token <= s[i + 1..];
    }
  }

  /** The substitution is undone exactly on the texts that hold none of the three tokens. */
  lemma RoundTripIff(s: string)
    ensures ReplaceSpecialCharacter(ReplaceSpecialCharacter(s, Encrypt), Decrypt) == s
            <==> !Contains(s, PLUS) && !Contains(s, SLASH) && !Contains(s, EQUALS)
  {
    CollapseKeepsIff(s, PLUS, '+');
    var s1 := Collapse(s, PLUS, '+');
    CollapseKeepsIff(s1, SLASH, '/');
    var s2 := Collapse(s1, SLASH, '/');
    CollapseKeepsIff(s2, EQUALS, '=');
    if Blank(s) {
      BlankHoldsNoToken(s);
    } else {
      DecodeAfterEncode(s);
      NotBlankEncoded(s);
    }
  }

  lemma BlankHoldsNoToken(s: string)
    requires Blank(s)
    ensures !Contains(s, PLUS) && !Contains(s, SLASH) && !Contains(s, EQUALS)
  {
    forall token: string | token != [] && Contains(s, token) ensures token[0] in s {
      var i :| 0 <= i <= |s| && token <= s[i..];
      assert s[i] == token[0];
    }
  }

  lemma NotBlankEncoded(s: string)
    requires !Blank(s)
    ensures !Blank(Encode(s))
  {
    EncodeIsSpelled(s);
    NotBlankSpelled(s);
  }

  lemma {:induction false} NotBlankSpelled(s: string)
    requires !Blank(s)
    ensures !Blank(Spelled(s, ALL))
  {
    var head, rest := if s[0] in ALL then ALL[s[0]] else [s[0]], Spelled(s[1..], ALL);
    assert Spelled(s, ALL) == head + rest;
    if White(s[0]) {
      assert s == [s[0]] + s[1..];
      NotBlankSpelled(s[1..]);
      var c :| c in rest && !White(c);
      assert c in head + rest;
    } else {
      assert !White(head[0]) && head[0] in head + rest;
    }
  }
}
