/**
 A user on one line, username:hash or username:hash:secret: internal/utils/user_utils.go reads it,
 cmd/tinyauth/create_user.go and cmd/tinyauth/generate_totp.go print it.
 */
module UserFormat {
  import opened Base
  import opened Strings

  datatype User = User(username: string, password: string, totpSecret: string)

  // ----- Dollar signs -----

  predicate Doubled(s: string) {
    |s| >= 2 && ((s[0] == '$' && s[1] == '$') || Doubled(s[1..]))
  }

  // strings.ReplaceAll(s, "$$", "$")
  function Collapse(s: string): (r: string)
    ensures |r| <= |s|
  {
    if s == "" then ""
    else if |s| >= 2 && s[0] == '$' && s[1] == '$' then "$" + Collapse(s[2..])
    else [s[0]] + Collapse(s[1..])
  }

  // strings.ReplaceAll(s, "$", "$$")
  function Escape(s: string): string {
    if s == "" then "" else (if s[0] == '$' then "$$" else [s[0]]) + Escape(s[1..])
  }

  lemma {:induction false} CollapseFixed(s: string)
    ensures Collapse(s) == s <==> !Doubled(s)
  {
    if s != "" {
      CollapseFixed(s[1..]);
      assert s == [s[0]] + s[1..];
      if |s| >= 2 && s[0] == '$' && s[1] == '$' {
        assert |Collapse(s)| < |s|;
      }
    }
  }

  lemma {:induction false} CollapseEscape(s: string)
    ensures Collapse(Escape(s)) == s
  {
    if s != "" {
      CollapseEscape(s[1..]);
      assert s == [s[0]] + s[1..];
      if s[0] == '$' {
        assert Escape(s)[2..] == Escape(s[1..]);
      } else {
        assert Escape(s)[1..] == Escape(s[1..]);
      }
    }
  }

  // A colon separates what is collapsed.
  lemma {:induction false} CollapseColon(a: string, b: string)
    ensures Collapse(a + ":" + b) == Collapse(a) + ":" + Collapse(b)
  {
    var s := a + ":" + b;
    if a == "" {
      assert s == ":" + b;
      assert s[1..] == b;
    } else if |a| >= 2 && a[0] == '$' && a[1] == '$' {
      assert s[2..] == a[2..] + ":" + b;
      CollapseColon(a[2..], b);
    } else {
      assert s[1..] == a[1..] + ":" + b;
      CollapseColon(a[1..], b);
    }
  }

  lemma {:induction false} CollapseKeeps(s: string, c: char)
    ensures c != '$' ==> (c in Collapse(s) <==> c in s)
  {
    if s != "" {
      assert s == [s[0]] + s[1..];
      if |s| >= 2 && s[0] == '$' && s[1] == '$' {
        assert s == "$$" + s[2..];
        CollapseKeeps(s[2..], c);
      } else {
        CollapseKeeps(s[1..], c);
      }
    }
  }

  // ----- Reading -----

  function IndexOf(s: string, c: char): (i: nat)
    requires c in s
    ensures i < |s| && s[i] == c && c !in s[..i]
  {
    if s[0] == c then 0
    else
      var rest := IndexOf(s[1..], c);
      assert s[..rest + 1] == [s[0]] + s[1..][..rest];
      rest + 1
  }

  // strings.SplitN
  function SplitN(s: string, sep: char, n: nat): (parts: seq<string>)
    requires n > 0
    ensures 0 < |parts| <= n
    decreases n
  {
    if n == 1 || sep !in s then [s]
    else
      var i := IndexOf(s, sep);
      [s[..i]] + SplitN(s[i + 1..], sep, n - 1)
  }

  lemma {:induction false} SplitNFirst(a: string, b: string, sep: char, n: nat)
    requires sep !in a && n > 1
    ensures SplitN(a + [sep] + b, sep, n) == [a] + SplitN(b, sep, n - 1)
  {
    var s := a + [sep] + b;
    assert s[|a|] == sep;
    assert IndexOf(s, sep) == |a|;
    assert s[..|a|] == a && s[|a| + 1..] == b;
  }

  predicate Blank(s: string) {
    TrimSpace(s) == ""
  }

  function FromParts(parts: seq<string>): Option<User> {
    if |parts| < 2 || |parts| > 3 || exists p :: p in parts && Blank(p) then None
    else
      Some(User(TrimSpace(parts[0]), TrimSpace(parts[1]), if |parts| == 3 then TrimSpace(parts[2]) else ""))
  }

  function ParseUser(line: string): Option<User> {
    FromParts(SplitN(Collapse(line), ':', 4))
  }

  // Up to its limit SplitN is Split.
  lemma {:induction false} SplitNIsSplit(s: string, sep: char, n: nat)
    requires n > 0
    ensures |Split(s, sep)| < n ==> SplitN(s, sep, n) == Split(s, sep)
    ensures |Split(s, sep)| >= n ==> |SplitN(s, sep, n)| == n
    decreases n
  {
    if sep !in s {
      SplitPiece(s, sep);
    } else if n > 1 {
      var i := IndexOf(s, sep);
      assert s == s[..i] + [sep] + s[i + 1..];
      SplitFirst(s[..i], sep, s[i + 1..]);
      SplitNIsSplit(s[i + 1..], sep, n - 1);
    }
  }

  /** A line reads as a user exactly when it has two or three parts and none is blank; the user is the trimmed parts. */
  lemma ParsedExactly(line: string)
    ensures var (parts, user) := (Split(Collapse(line), ':'), ParseUser(line));
            && (user.Some? <==> 2 <= |parts| <= 3 && forall p :: p in parts ==> TrimSpace(p) != "")
            && (user.Some? ==>
                 && user.value.username == TrimSpace(parts[0]) && user.value.password == TrimSpace(parts[1])
                 && user.value.totpSecret == if |parts| == 3 then TrimSpace(parts[2]) else "")
  {
    SplitNIsSplit(Collapse(line), ':', 4);
  }

  // The loop that trims the parts in place and gives up on an empty one.
  method TrimParts(split: seq<string>) returns (trimmedParts: Option<seq<string>>)
    ensures trimmedParts.None? <==> exists p :: p in split && Blank(p)
    ensures trimmedParts.Some? ==> |trimmedParts.value| == |split|
    ensures trimmedParts.Some? ==> forall j :: 0 <= j < |split| ==> trimmedParts.value[j] == TrimSpace(split[j])
  {
    var parts, i := split, 0;
    while i < |split|
      invariant 0 <= i <= |split| == |parts|
      invariant forall j :: 0 <= j < i ==> parts[j] == TrimSpace(split[j]) && !Blank(split[j])
      invariant forall j :: i <= j < |split| ==> parts[j] == split[j]
    {
      var trimmed := TrimSpace(parts[i]);
      if trimmed == "" {
        assert split[i] in split && Blank(split[i]);
        return None;
      }
      parts := parts[i := trimmed];
      i := i + 1;
    }
    return Some(parts);
  }

  method ReadUser(userStr: string) returns (user: Option<User>)
    ensures user == ParseUser(userStr)
  {
    var text := userStr;
    CollapseFixed(userStr);
    if Doubled(userStr) {
      text := Collapse(userStr);
    }
    var split := SplitN(text, ':', 4);
    if |split| < 2 || |split| > 3 {
      return None;
    }
    var trimmedParts := TrimParts(split);
    if trimmedParts.None? {
      return None;
    }
    var parts := trimmedParts.value;
    var parsed := User(parts[0], parts[1], "");
    if |parts| == 3 {
      parsed := parsed.(totpSecret := parts[2]);
    }
    return Some(parsed);
  }

  // ----- Printing -----

  function Line(username: string, hash: string): string {
    username + ":" + hash
  }

  function LineWithSecret(user: User): string {
    user.username + ":" + user.password + ":" + user.totpSecret
  }

  // The plain line, and the one for the environment; hash is what bcrypt makes of the password.
  method CreateUser(username: string, password: string, hash: string, docker: bool)
    returns (lines: Option<(string, string)>)
    ensures lines.Some? <==> username != "" && password != "" && ':' !in username
    ensures lines.Some? ==> lines.value.0 == Line(username, hash)
    ensures lines.Some? ==> lines.value.1 == Line(username, if docker then Escape(hash) else hash)
  {
    if username == "" || password == "" {
      return None;
    }
    if ':' in username {
      return None;
    }
    var outputStr := hash;
    if docker {
      outputStr := Escape(hash);
    }
    return Some((username + ":" + hash, username + ":" + outputStr));
  }

  function WithSecret(line: string, secret: string): Option<string> {
    var user := ParseUser(line);
    if user.None? || user.value.totpSecret != "" then None
    else
      var password := if Doubled(line) then Escape(user.value.password) else user.value.password;
      Some(LineWithSecret(User(user.value.username, password, secret)))
  }

  method GenerateTotp(line: string, secret: string) returns (printed: Option<string>)
    ensures printed == WithSecret(line, secret)
  {
    if line == "" {
      return None;
    }
    var user := ReadUser(line);
    if user.None? {
      return None;
    }
    var docker := false;
    if Doubled(line) {
      docker := true;
    }
    if user.value.totpSecret != "" {
      return None;
    }
    var updated := user.value.(totpSecret := secret);
    if docker {
      updated := updated.(password := Escape(updated.password));
    }
    return Some(LineWithSecret(updated));
  }

  // ----- Round trips -----

  predicate Field(s: string) {
    s != "" && ':' !in s
  }

  lemma SplitTwo(a: string, b: string, n: nat)
    requires ':' !in a && ':' !in b && n > 2
    ensures SplitN(a + ":" + b, ':', n) == [a, b]
  {
    SplitNFirst(a, b, ':', n);
    assert SplitN(b, ':', n - 1) == [b];
  }

  lemma SplitThree(a: string, b: string, c: string)
    requires ':' !in a && ':' !in b && ':' !in c
    ensures SplitN(a + ":" + b + ":" + c, ':', 4) == [a, b, c]
  {
    assert a + ":" + b + ":" + c == a + ":" + (b + ":" + c);
    SplitNFirst(a, b + ":" + c, ':', 4);
    SplitTwo(b, c, 3);
  }

  lemma FromTwo(x: string, y: string)
    ensures FromParts([x, y]) == if Blank(x) || Blank(y) then None else Some(User(TrimSpace(x), TrimSpace(y), ""))
  {
    assert x in [x, y] && y in [x, y];
  }

  lemma FromThree(x: string, y: string, z: string)
    ensures FromParts([x, y, z]) ==
            if Blank(x) || Blank(y) || Blank(z) then None else Some(User(TrimSpace(x), TrimSpace(y), TrimSpace(z)))
  {
    assert x in [x, y, z] && y in [x, y, z] && z in [x, y, z];
  }

  lemma ParseTwo(a: string, b: string)
    requires ':' !in a && ':' !in b
    ensures ParseUser(a + ":" + b) == FromParts([Collapse(a), Collapse(b)])
  {
    CollapseColon(a, b);
    CollapseKeeps(a, ':');
    CollapseKeeps(b, ':');
    SplitTwo(Collapse(a), Collapse(b), 4);
  }

  lemma ParseThree(a: string, b: string, c: string)
    requires ':' !in a && ':' !in b && ':' !in c
    ensures ParseUser(a + ":" + b + ":" + c) == FromParts([Collapse(a), Collapse(b), Collapse(c)])
  {
    CollapseColon(a + ":" + b, c);
    CollapseColon(a, b);
    CollapseKeeps(a, ':');
    CollapseKeeps(b, ':');
    CollapseKeeps(c, ':');
    SplitThree(Collapse(a), Collapse(b), Collapse(c));
  }

  // A field survives collapsing and trimming exactly when neither changes it.
  lemma FieldSurvives(s: string)
    ensures TrimSpace(Collapse(s)) == s <==> Trimmed(s) && !Doubled(s)
  {
    CollapseFixed(s);
    TrimmedIsFixed(s);
    if TrimSpace(Collapse(s)) == s {
      assert |Collapse(s)| == |s|;
      SameLengthIsFixed(s);
    }
  }

  lemma {:induction false} SameLengthIsFixed(s: string)
    requires |Collapse(s)| == |s|
    ensures Collapse(s) == s
  {
    if s != "" {
      assert s == [s[0]] + s[1..];
      SameLengthIsFixed(s[1..]);
    }
  }

  lemma EscapeKeeps(s: string)
    ensures ':' in Escape(s) <==> ':' in s
  {
    CollapseEscape(s);
    CollapseKeeps(Escape(s), ':');
  }

  /** The escaped line gives the user back exactly when the fields are trimmed and the name has no "$$". */
  lemma DockerLineExactly(username: string, hash: string)
    requires Field(username) && Field(hash)
    ensures ParseUser(Line(username, Escape(hash))) == Some(User(username, hash, "")) <==>
            Trimmed(username) && !Doubled(username) && Trimmed(hash)
  {
    EscapeKeeps(hash);
    ParseTwo(username, Escape(hash));
    CollapseEscape(hash);
    FromTwo(Collapse(username), hash);
    FieldSurvives(username);
    TrimmedIsFixed(hash);
  }

  /** The plain line gives it back exactly when, besides, the hash has no "$$" either. */
  lemma RawLineExactly(username: string, hash: string)
    requires Field(username) && Field(hash)
    ensures ParseUser(Line(username, hash)) == Some(User(username, hash, "")) <==>
            Trimmed(username) && !Doubled(username) && Trimmed(hash) && !Doubled(hash)
  {
    ParseTwo(username, hash);
    FromTwo(Collapse(username), Collapse(hash));
    FieldSurvives(username);
    FieldSurvives(hash);
  }

  lemma {:induction false} TrimLeftKeeps(s: string)
    ensures Doubled(TrimLeft(s)) ==> Doubled(s)
  {
    if s != "" && IsSpace(s[0]) {
      TrimLeftKeeps(s[1..]);
    }
  }

  lemma {:induction false} PrefixKeeps(s: string, n: nat)
    requires n <= |s| && Doubled(s[..n])
    ensures Doubled(s)
  {
    var p := s[..n];
    if !(p[0] == '$' && p[1] == '$') {
      assert p[1..] == s[1..][..n - 1];
      PrefixKeeps(s[1..], n - 1);
    }
  }

  lemma TrimKeeps(s: string)
    ensures Doubled(TrimSpace(s)) ==> Doubled(s)
  {
    TrimLeftKeeps(s);
    if Doubled(TrimSpace(s)) {
      PrefixKeeps(TrimLeft(s), |TrimSpace(s)|);
    }
  }

  lemma {:induction false} PieceKeeps(s: string, i: nat, j: nat)
    requires i <= j <= |s| && Doubled(s[i..j])
    ensures Doubled(s)
    decreases i
  {
    if i == 0 {
      PrefixKeeps(s, j);
    } else {
      assert s[i..j] == s[1..][i - 1..j - 1];
      PieceKeeps(s[1..], i - 1, j - 1);
    }
  }

  lemma {:induction false} SplitKeeps(s: string, n: nat)
    requires n > 0 && !Doubled(s)
    ensures forall p :: p in SplitN(s, ':', n) ==> !Doubled(p)
    decreases n
  {
    if n > 1 && ':' in s {
      var i := IndexOf(s, ':');
      if Doubled(s[i + 1..]) {
        assert s[i + 1..|s|] == s[i + 1..];
        PieceKeeps(s, i + 1, |s|);
      }
      if Doubled(s[..i]) {
        PrefixKeeps(s, i);
      }
      SplitKeeps(s[i + 1..], n - 1);
    }
  }

  lemma {:induction false} SplitNPieces(s: string, n: nat, k: nat)
    requires n > 0 && k < |SplitN(s, ':', n)| && k + 1 < n
    ensures ':' !in SplitN(s, ':', n)[k]
    decreases n
  {
    if ':' in s && k > 0 {
      SplitNPieces(s[IndexOf(s, ':') + 1..], n - 1, k - 1);
    }
  }

  lemma PartIsField(line: string, k: nat)
    requires k < 2 && ParseUser(line).Some?
    ensures var parts := SplitN(Collapse(line), ':', 4);
            k < |parts| && Field(TrimSpace(parts[k])) && Trimmed(TrimSpace(parts[k]))
  {
    var parts := SplitN(Collapse(line), ':', 4);
    assert parts[k] in parts;
    SplitNPieces(Collapse(line), 4, k);
    TrimTwice(parts[k]);
  }

  lemma PartNotDoubled(line: string, k: nat)
    requires k < 2 && ParseUser(line).Some? && !Doubled(line)
    ensures !Doubled(TrimSpace(SplitN(Collapse(line), ':', 4)[k]))
  {
    CollapseFixed(line);
    SplitKeeps(line, 4);
    TrimKeeps(SplitN(line, ':', 4)[k]);
  }

  // What was read is made of fields: non-empty, trimmed, without colons; and without "$$" if the line had none.
  lemma ParsedFields(line: string)
    requires ParseUser(line).Some?
    ensures var u := ParseUser(line).value;
            && Field(u.username) && Trimmed(u.username) && Field(u.password) && Trimmed(u.password)
            && (!Doubled(line) ==> !Doubled(u.username) && !Doubled(u.password))
  {
    PartIsField(line, 0);
    PartIsField(line, 1);
    if !Doubled(line) {
      PartNotDoubled(line, 0);
      PartNotDoubled(line, 1);
    }
  }

  lemma TrimTwice(s: string)
    ensures Trimmed(TrimSpace(s))
  {
    var left := TrimLeft(s);
    assert TrimRight(left) == left[..|TrimRight(left)|];
  }

  /**
   The line printed with a new secret reads as the user that was given plus the secret, exactly when
   the name that was read has no "$$". Secrets are base 32: trimmed, without colons and dollar signs.
   */
  lemma NewSecretExactly(line: string, secret: string)
    requires WithSecret(line, secret).Some?
    requires Field(secret) && Trimmed(secret) && !Doubled(secret)
    ensures var user := ParseUser(line).value;
            ParseUser(WithSecret(line, secret).value) == Some(user.(totpSecret := secret)) <==> !Doubled(user.username)
  {
    var user := ParseUser(line).value;
    ParsedFields(line);
    var password := if Doubled(line) then Escape(user.password) else user.password;
    EscapeKeeps(user.password);
    ParseThree(user.username, password, secret);
    FromThree(Collapse(user.username), Collapse(password), Collapse(secret));
    FieldSurvives(user.username);
    FieldSurvives(secret);
    CollapseEscape(user.password);
    FieldSurvives(user.password);
    TrimmedIsFixed(user.password);
  }
}
