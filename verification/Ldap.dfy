/**
 Escaping a login for a search filter, apps/api/src/app/core/ldap_client.py, against the
 string form of search filters in section 3 of RFC 4515.
 */
module Ldap {
  import opened Basics
  import opened Text

  // ---------------------------------------------------------------- the code

  // `s.replace(c, sub)` for one character.
  function Replace(s: string, c: char, sub: string): string {
    if s == [] then [] else (if s[0] == c then sub else [s[0]]) + Replace(s[1..], c, sub)
  }

  function SafeLogin(login: string): string {
    Replace(Replace(Replace(Replace(Replace(login, '\\', "\\5c"), '*', "\\2a"), '(', "\\28"), ')', "\\29"), '\0', "\\00")
  }

  // ---------------------------------------------------------------- RFC 4515, section 3

  // The characters an assertion value may not hold as they are.
  predicate IsSpecial(c: char) { c == '\\' || c == '*' || c == '(' || c == ')' || c == '\0' }

  // valueencoding = 0*(normal / escaped), with escaped a backslash and two hexadecimal digits;
  // an octet of a multi-byte character stays as it is, so only codes below 128 are decoded here.
  function DecodeValue(s: string): Option<string> {
    if s == [] then Some([])
    else if s[0] == '\\' then
      if |s| < 3 || !IsHex(s[1]) || !IsHex(s[2]) || 8 <= HexVal(s[1]) then None
      else
        match DecodeValue(s[3..])
        case Some(rest) => Some([(HexVal(s[1]) * 16 + HexVal(s[2])) as char] + rest)
        case None => None
    else if IsSpecial(s[0]) then None
    else
      match DecodeValue(s[1..])
      case Some(rest) => Some([s[0]] + rest)
      case None => None
  }

  // ---------------------------------------------------------------- five replacements are one

  function EscapeChar(c: char): string {
    if c == '\\' then "\\5c" else if c == '*' then "\\2a" else if c == '(' then "\\28"
    else if c == ')' then "\\29" else if c == '\0' then "\\00" else [c]
  }

  function Escape(s: string): string { if s == [] then [] else EscapeChar(s[0]) + Escape(s[1..]) }

  lemma {:induction false} ReplaceAppend(a: string, b: string, c: char, sub: string)
    ensures Replace(a + b, c, sub) == Replace(a, c, sub) + Replace(b, c, sub)
  {
    if a == [] {
      assert a + b == b;
    } else {
      assert (a + b)[1..] == a[1..] + b;
      ReplaceAppend(a[1..], b, c, sub);
    }
  }

  lemma {:induction false} ReplaceNone(s: string, c: char, sub: string)
    requires c !in s
    ensures Replace(s, c, sub) == s
  {
    if s != [] {
      ReplaceNone(s[1..], c, sub);
    }
  }

  lemma ReplaceOne(x: char, c: char, sub: string)
    ensures Replace([x], c, sub) == if x == c then sub else [x]
  {
    assert [x][1..] == [];
    assert sub + [] == sub;
  }

  // The characters replaced, and by what, in the code's order.
  function By(i: nat): string
    requires i < 5
  {
    ["\\5c", "\\2a", "\\28", "\\29", "\\00"][i]
  }

  function At(i: nat): char
    requires i < 5
  {
    ['\\', '*', '(', ')', '\0'][i]
  }

  // The first `n` replacements.
  function Steps(s: string, n: nat): string
    requires n <= 5
  {
    if n == 0 then s else Replace(Steps(s, n - 1), At(n - 1), By(n - 1))
  }

  lemma StepsAreTheCode(s: string)
    ensures Steps(s, 5) == SafeLogin(s)
  {
    var a := Steps(s, 1);
    assert a == Replace(Steps(s, 0), At(0), By(0));
    var b := Steps(s, 2);
    assert b == Replace(a, At(1), By(1));
    var c := Steps(s, 3);
    assert c == Replace(b, At(2), By(2));
    var d := Steps(s, 4);
    assert d == Replace(c, At(3), By(3));
    assert Steps(s, 5) == Replace(d, At(4), By(4));
    hide Replace, Steps;
  }

  lemma {:induction false} StepsAppend(a: string, b: string, n: nat)
    requires n <= 5
    ensures Steps(a + b, n) == Steps(a, n) + Steps(b, n)
  {
    if n > 0 {
      hide Replace, At, By;
      StepsAppend(a, b, n - 1);
      ReplaceAppend(Steps(a, n - 1), Steps(b, n - 1), At(n - 1), By(n - 1));
    }
  }

  // A replacement's text holds none of the characters replaced after it.
  lemma LaterLeaveAlone(i: nat, j: nat)
    requires i < j < 5
    ensures At(j) !in By(i) && At(i) != At(j)
  {
  }

  // One character through all replacements: at most one of them applies.
  lemma {:induction false} StepsOfOne(x: char, n: nat)
    requires n <= 5
    ensures forall i | 0 <= i < n && x == At(i) :: Steps([x], n) == By(i)
    ensures (forall i | 0 <= i < n :: x != At(i)) ==> Steps([x], n) == [x]
  {
    if n > 0 {
      hide At, By;
      StepsOfOne(x, n - 1);
      ReplaceOne(x, At(n - 1), By(n - 1));
      if i :| 0 <= i < n - 1 && x == At(i) {
        LaterLeaveAlone(i, n - 1);
        ReplaceNone(By(i), At(n - 1), By(n - 1));
      }
      forall i | 0 <= i < n && x == At(i) ensures Steps([x], n) == By(i) {
        if i < n - 1 {
          LaterLeaveAlone(i, n - 1);
        }
      }
    }
  }

  lemma StepsEscape(x: char)
    ensures Steps([x], 5) == EscapeChar(x)
  {
    StepsOfOne(x, 5);
    hide Steps;
    assert At(0) == '\\' && At(1) == '*' && At(2) == '(' && At(3) == ')' && At(4) == '\0';
  }

  // The five replacements, one after the other, escape every character once and at once.
  lemma {:induction false} SafeLoginIsEscape(login: string)
    ensures SafeLogin(login) == Escape(login)
  {
    StepsAreTheCode(login);
    hide SafeLogin, Steps, EscapeChar;
    if login == [] {
      StepsOfNothing();
    } else {
      SafeLoginIsEscape(login[1..]);
      StepsAreTheCode(login[1..]);
      assert login == [login[0]] + login[1..];
      StepsAppend([login[0]], login[1..], 5);
      StepsEscape(login[0]);
    }
  }

  lemma StepsOfNothing()
    ensures Steps([], 5) == []
  {
    assert Steps([], 1) == [] && Steps([], 2) == [] && Steps([], 3) == [];
  }

  // ---------------------------------------------------------------- the result is a value that means the login

  lemma EscapedText(c: char)
    requires IsSpecial(c)
    ensures var e := EscapeChar(c);
            && |e| == 3 && e[0] == '\\' && IsHex(e[1]) && IsHex(e[2]) && HexVal(e[1]) < 8
            && (HexVal(e[1]) * 16 + HexVal(e[2])) as char == c
  {
  }

  lemma EscapedDecodes(c: char, rest: string)
    requires DecodeValue(rest).Some?
    ensures DecodeValue(EscapeChar(c) + rest) == Some([c] + DecodeValue(rest).value)
  {
    var s := EscapeChar(c) + rest;
    if IsSpecial(c) {
      EscapedText(c);
      hide EscapeChar, HexVal, IsHex;
      assert s[3..] == rest;
    } else {
      assert s[1..] == rest;
    }
  }

  lemma {:induction false} DecodeEscape(login: string)
    ensures DecodeValue(Escape(login)) == Some(login)
  {
    if login != [] {
      DecodeEscape(login[1..]);
      EscapedDecodes(login[0], Escape(login[1..]));
      assert [login[0]] + login[1..] == login;
    }
  }

  // What the filter holds for a login is a well-formed assertion value, and the server reads the
  // login back from it, whatever characters the login has.
  lemma LoginReadBack(login: string)
    ensures DecodeValue(SafeLogin(login)) == Some(login)
  {
    SafeLoginIsEscape(login);
    DecodeEscape(login);
  }

  // No character that would end the value or act as a wildcard is left bare.
  lemma {:induction false} NoBareSpecials(login: string)
    ensures forall i | 0 <= i < |Escape(login)| :: Escape(login)[i] == '\\' || !IsSpecial(Escape(login)[i])
  {
    if login != [] {
      NoBareSpecials(login[1..]);
    }
  }

  lemma SafeLoginIsSafe(login: string)
    ensures forall i | 0 <= i < |SafeLogin(login)| :: SafeLogin(login)[i] !in ['*', '(', ')', '\0']
    ensures forall other :: SafeLogin(other) == SafeLogin(login) ==> other == login
  {
    SafeLoginIsEscape(login);
    NoBareSpecials(login);
    forall other | SafeLogin(other) == SafeLogin(login) ensures other == login {
      LoginReadBack(other);
      LoginReadBack(login);
    }
  }
}
