/** The identity string that is hashed into a ref (refs/generator.py:138-147) and the proof that it names
    one (role, name, frame path, occurrence) only. */
module RefEncoding {
  const NAMESPACE := "browser-cli-semantic-v1"

  /** The unit separator, U+001F. */
  const SEPARATOR: char := 31 as char

  function Digit(n: nat): char
    requires n < 10
  {
    (48 + n) as char
  }

  function Decimal(n: nat): string {
    if n < 10 then [Digit(n)] else Decimal(n / 10) + [Digit(n % 10)]
  }

  /** The numbers of a frame path joined by commas. */
  function PathText(path: seq<nat>): string {
    if path == [] then ""
    else if |path| == 1 then Decimal(path[0])
    else Decimal(path[0]) + "," + PathText(path[1..])
  }

  function Encode(role: string, name: string, path: seq<nat>, nth: nat): string {
    NAMESPACE + [SEPARATOR] + role + [SEPARATOR] + name + [SEPARATOR] + PathText(path) + [SEPARATOR] + Decimal(nth)
  }

  lemma {:induction false} DecimalDigits(n: nat)
    ensures Decimal(n) != ""
    ensures forall k :: 0 <= k < |Decimal(n)| ==> '0' <= Decimal(n)[k] <= '9'
  {
    if n >= 10 {
      DecimalDigits(n / 10);
    }
  }

  lemma {:induction false} DecimalInjective(a: nat, b: nat)
    requires Decimal(a) == Decimal(b)
    ensures a == b
  {
    DecimalDigits(a / 10);
    DecimalDigits(b / 10);
    var s, t := Decimal(a), Decimal(b);
    assert s[|s| - 1] == Digit(a % 10);
    assert t[|t| - 1] == Digit(b % 10);
    if a >= 10 && b >= 10 {
      assert s[..|s| - 1] == Decimal(a / 10);
      assert t[..|t| - 1] == Decimal(b / 10);
      DecimalInjective(a / 10, b / 10);
    }
  }

  /** The index of the first c in s, or |s|. */
  ghost function First(c: char, s: string): nat {
    if s == "" || s[0] == c then 0 else 1 + First(c, s[1..])
  }

  /** The number of characters after the last c in s. */
  ghost function AfterLast(c: char, s: string): nat {
    if s == "" || s[|s| - 1] == c then 0 else 1 + AfterLast(c, s[..|s| - 1])
  }

  lemma {:induction false} FirstOf(c: char, a: string, x: string)
    requires c !in a
    ensures First(c, a + [c] + x) == |a|
  {
    if a == "" {
      assert (a + [c] + x)[0] == c;
    } else {
      assert (a + [c] + x)[1..] == a[1..] + [c] + x;
      FirstOf(c, a[1..], x);
    }
  }

  lemma {:induction false} AfterLastOf(c: char, x: string, a: string)
    requires c !in a
    ensures AfterLast(c, x + [c] + a) == |a|
  {
    var s := x + [c] + a;
    if a == "" {
      assert s[|s| - 1] == c;
    } else {
      assert s[..|s| - 1] == x + [c] + a[..|a| - 1];
      AfterLastOf(c, x, a[..|a| - 1]);
    }
  }

  /** The first separator decides how a string splits when it cannot occur in the first part. */
  lemma SplitFirst(c: char, a: string, x: string, b: string, y: string)
    requires c !in a && c !in b
    requires a + [c] + x == b + [c] + y
    ensures a == b && x == y
  {
    var s, t := a + [c] + x, b + [c] + y;
    FirstOf(c, a, x);
    FirstOf(c, b, y);
    assert a == s[..|a|];
    assert b == t[..|b|];
    assert x == s[|a| + 1..];
    assert y == t[|b| + 1..];
  }

  /** The last separator decides when it cannot occur in the second part. */
  lemma SplitLast(c: char, x: string, a: string, y: string, b: string)
    requires c !in a && c !in b
    requires x + [c] + a == y + [c] + b
    ensures x == y && a == b
  {
    var s, t := x + [c] + a, y + [c] + b;
    AfterLastOf(c, x, a);
    AfterLastOf(c, y, b);
    assert x == s[..|x|];
    assert y == t[..|y|];
    assert a == s[|x| + 1..];
    assert b == t[|y| + 1..];
  }

  lemma {:induction false} PathTextCharacters(path: seq<nat>)
    ensures forall k :: 0 <= k < |PathText(path)| ==> '0' <= PathText(path)[k] <= '9' || PathText(path)[k] == ','
    ensures PathText(path) == "" <==> path == []
    ensures ',' in PathText(path) <==> |path| > 1
  {
    if path != [] {
      DecimalDigits(path[0]);
      PathTextCharacters(path[1..]);
      if |path| > 1 {
        assert PathText(path)[|Decimal(path[0])|] == ',';
      }
    }
  }

  lemma {:induction false} PathTextInjective(p: seq<nat>, q: seq<nat>)
    requires PathText(p) == PathText(q)
    ensures p == q
  {
    PathTextCharacters(p);
    PathTextCharacters(q);
    if p != [] {
      DecimalDigits(p[0]);
      DecimalDigits(q[0]);
      assert ',' !in Decimal(p[0]);
      assert ',' !in Decimal(q[0]);
      if |p| == 1 {
        DecimalInjective(p[0], q[0]);
      } else {
        SplitFirst(',', Decimal(p[0]), PathText(p[1..]), Decimal(q[0]), PathText(q[1..]));
        DecimalInjective(p[0], q[0]);
        PathTextInjective(p[1..], q[1..]);
        assert p == [p[0]] + p[1..];
        assert q == [q[0]] + q[1..];
      }
    }
  }

  /** The string to hash determines role, name, frame path and occurrence, even when the name itself
      contains separators: a role has none, and neither have the two fields after the name. */
  lemma EncodeInjective(role: string, name: string, path: seq<nat>, nth: nat,
                        role': string, name': string, path': seq<nat>, nth': nat)
    requires SEPARATOR !in role && SEPARATOR !in role'
    ensures Encode(role, name, path, nth) == Encode(role', name', path', nth')
            <==> role == role' && name == name' && path == path' && nth == nth'
  {
    if Encode(role, name, path, nth) == Encode(role', name', path', nth') {
      DecimalDigits(nth);
      DecimalDigits(nth');
      PathTextCharacters(path);
      PathTextCharacters(path');
      var upToPath := NAMESPACE + [SEPARATOR] + role + [SEPARATOR] + name + [SEPARATOR] + PathText(path);
      var upToPath' := NAMESPACE + [SEPARATOR] + role' + [SEPARATOR] + name' + [SEPARATOR] + PathText(path');
      SplitLast(SEPARATOR, upToPath, Decimal(nth), upToPath', Decimal(nth'));
      DecimalInjective(nth, nth');
      var upToName := NAMESPACE + [SEPARATOR] + role + [SEPARATOR] + name;
      var upToName' := NAMESPACE + [SEPARATOR] + role' + [SEPARATOR] + name';
      SplitLast(SEPARATOR, upToName, PathText(path), upToName', PathText(path'));
      PathTextInjective(path, path');
      assert upToName == NAMESPACE + [SEPARATOR] + (role + [SEPARATOR] + name);
      assert upToName' == NAMESPACE + [SEPARATOR] + (role' + [SEPARATOR] + name');
      assert role + [SEPARATOR] + name == upToName[|NAMESPACE| + 1..];
      assert role' + [SEPARATOR] + name' == upToName'[|NAMESPACE| + 1..];
      SplitFirst(SEPARATOR, role, name, role', name');
    }
  }
}
