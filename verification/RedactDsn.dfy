/** Masking the password of a DSN (internal/chclient/pool.go). */
module RedactDsn {
  import opened GoStrings

  const MASK := "xxxxx"

  /** RedactDSN's work behind the scheme: mask between the first ':' and the first '@'. */
  function RedactRest(rest: string): string {
    var at := Index(rest, "@");
    if at < 0 then rest
    else
      var colon := Index(rest[..at], ":");
      if colon < 0 then rest else rest[..colon + 1] + MASK + rest[at..]
  }

  /** RedactDSN */
  function RedactDSN(raw: string): string {
    var schemeEnd := Index(raw, "://");
    var prefix := if schemeEnd >= 0 then raw[..schemeEnd + 3] else "";
    var rest := if schemeEnd >= 0 then raw[schemeEnd + 3..] else raw;
    var at := Index(rest, "@");
    if at < 0 then raw
    else
      var colon := Index(rest[..at], ":");
      if colon < 0 then raw
      else prefix + rest[..colon + 1] + MASK + rest[at..]
  }

  lemma OneChar(s: string, c: char, k: int)
    ensures OccursAt(s, [c], k) <==> 0 <= k < |s| && s[k] == c
  {
    if 0 <= k < |s| {
      assert s[k..k + 1] == [s[k]];
    }
  }

  /** strings.Index for one character, read as "first position holding it". */
  lemma FirstChar(s: string, c: char, k: nat)
    requires k < |s| && s[k] == c && forall j :: 0 <= j < k ==> s[j] != c
    ensures Index(s, [c]) == k
  {
    OneChar(s, c, k);
    forall j | 0 <= j < k ensures !OccursAt(s, [c], j) {
      OneChar(s, c, j);
    }
  }

  lemma NoChar(s: string, c: char)
    ensures Index(s, [c]) < 0 <==> c !in s
    ensures Index(s, [c]) >= 0 ==> Index(s, [c]) < |s| && s[Index(s, [c])] == c && c !in s[..Index(s, [c])]
  {
    var r := Index(s, [c]);
    OneChar(s, c, r);
    forall j | 0 <= j < |s| && s[j] == c ensures r >= 0 && r <= j {
      OneChar(s, c, j);
    }
  }

  /** The three pieces a redactable rest falls into. */
  lemma Pieces(user: string, pw: string, tail: string)
    requires ':' !in user && '@' !in user && '@' !in pw
    ensures RedactRest(user + ":" + pw + "@" + tail) == user + ":" + MASK + "@" + tail
  {
    var rest := user + ":" + pw + "@" + tail;
    var at := |user| + 1 + |pw|;
    forall j | 0 <= j < at ensures rest[j] != '@' {
      if j < |user| {
        assert rest[j] == user[j];
      } else if j > |user| {
        assert rest[j] == pw[j - |user| - 1];
      }
    }
    FirstChar(rest, '@', at);
    var head := rest[..at];
    assert head == user + ":" + pw;
    FirstChar(head, ':', |user|);
    assert rest[..|user| + 1] == user + ":";
    assert rest[at..] == "@" + tail;
  }

  /** What masking a rest leaves: either nothing changed, or a user, the mask and a tail. */
  lemma MaskedForm(rest: string) returns (masked: bool, user: string, tail: string)
    ensures !masked ==> RedactRest(rest) == rest
    ensures masked ==> ':' !in user && '@' !in user && RedactRest(rest) == user + ":" + MASK + "@" + tail
  {
    NoChar(rest, '@');
    var at := Index(rest, "@");
    masked := at >= 0 && Index(rest[..at], ":") >= 0;
    user, tail := "", "";
    if masked {
      NoChar(rest[..at], ':');
      var colon := Index(rest[..at], ":");
      user, tail := rest[..colon], rest[at + 1..];
      assert user == rest[..at][..colon];
      assert rest[..colon + 1] == user + ":" && rest[at..] == "@" + tail;
      assert user + ":" + MASK + ("@" + tail) == user + ":" + MASK + "@" + tail;
    }
  }

  /** Redacting is idempotent behind the scheme: the same '@' and ':' are found again. */
  lemma RestIdempotent(rest: string)
    ensures RedactRest(RedactRest(rest)) == RedactRest(rest)
  {
    var masked, user, tail := MaskedForm(rest);
    if masked {
      MaskHasNoAt();
      Pieces(user, MASK, tail);
    }
  }

  lemma MaskHasNoAt()
    ensures '@' !in MASK && ':' !in MASK && |MASK| == 5
  {
  }

  lemma Regroup(a: string, b: string, c: string, d: string)
    ensures a + b + c + d == a + (b + c + d)
  {
  }

  /** RedactDSN keeps the text up to the first "://" and works on what follows it. */
  lemma BehindScheme(raw: string)
    ensures var schemeEnd := Index(raw, "://");
            RedactDSN(raw) == if schemeEnd >= 0 then raw[..schemeEnd + 3] + RedactRest(raw[schemeEnd + 3..])
                              else RedactRest(raw)
  {
    var schemeEnd := Index(raw, "://");
    var prefix := if schemeEnd >= 0 then raw[..schemeEnd + 3] else "";
    var rest := if schemeEnd >= 0 then raw[schemeEnd + 3..] else raw;
    assert raw == prefix + rest;
    var at := Index(rest, "@");
    if at >= 0 {
      var colon := Index(rest[..at], ":");
      if colon >= 0 {
        Regroup(prefix, rest[..colon + 1], MASK, rest[at..]);
        assert "" + RedactRest(rest) == RedactRest(rest);
      }
    }
  }

  /** The first "://" stays first whatever is put behind it. */
  lemma SchemeStays(scheme: string, a: string, b: string)
    requires Index(scheme + "://" + a, "://") == |scheme|
    ensures Index(scheme + "://" + b, "://") == |scheme|
  {
    var s, t := scheme + "://" + a, scheme + "://" + b;
    assert t[|scheme|..|scheme| + 3] == "://";
    forall j | 0 <= j < |scheme| ensures !OccursAt(t, "://", j) {
      assert !OccursAt(s, "://", j);
      assert s[j..j + 3] == (scheme + "://")[j..j + 3] == t[j..j + 3];
    }
    IndexIs(t, "://", |scheme|);
  }

  lemma NotHere(t: string, j: int)
    requires 0 <= j && j + 3 <= |t| ==> t[j] != ':' || t[j + 1] != '/'
    ensures !OccursAt(t, "://", j)
  {
    if 0 <= j && j + 3 <= |t| {
      assert t[j..j + 3][0] == t[j] && t[j..j + 3][1] == t[j + 1];
    }
  }

  /** Masking never creates a scheme separator where there was none. */
  lemma NoNewScheme(rest: string)
    requires Index(rest, "://") < 0
    ensures Index(RedactRest(rest), "://") < 0
  {
    NoChar(rest, '@');
    var at := Index(rest, "@");
    if at >= 0 && Index(rest[..at], ":") >= 0 {
      NoChar(rest[..at], ':');
      var colon := Index(rest[..at], ":");
      MaskedHasNoScheme(rest, colon, at);
    }
  }

  lemma MaskedHasNoScheme(rest: string, colon: nat, at: nat)
    requires colon < at < |rest| && ':' !in rest[..at][..colon]
    requires forall j :: 0 <= j ==> !OccursAt(rest, "://", j)
    ensures Index(rest[..colon + 1] + MASK + rest[at..], "://") < 0
  {
    var t := rest[..colon + 1] + MASK + rest[at..];
    forall j | 0 <= j <= |t| ensures !OccursAt(t, "://", j) {
      if j < colon {
        assert t[j] == rest[..at][..colon][j];
        NotHere(t, j);
      } else if j < colon + 6 {
        assert t[colon + 1] == 'x';
        assert j > colon ==> t[j] == MASK[j - colon - 1];
        NotHere(t, j);
      } else {
        var k := j - (colon + 6) + at;
        assert !OccursAt(rest, "://", k);
        if j + 3 <= |t| {
          assert t[j..j + 3] == rest[k..k + 3];
        }
      }
    }
    IndexNone(t, "://");
  }

  /** With a scheme in front, redaction happens behind it. */
  lemma RedactBehind(scheme: string, rest: string)
    requires Index(scheme + "://" + rest, "://") == |scheme|
    ensures RedactDSN(scheme + "://" + rest) == scheme + "://" + RedactRest(rest)
  {
    var raw := scheme + "://" + rest;
    BehindScheme(raw);
    assert raw[..|scheme| + 3] == scheme + "://" && raw[|scheme| + 3..] == rest;
  }

  /** The text up to its first "://", which may be missing, and what follows. */
  ghost predicate SchemeAndRest(prefix: string, rest: string) {
    if prefix == "" then Index(rest, "://") < 0
    else |prefix| >= 3 && Index(prefix + rest, "://") == |prefix| - 3
  }

  lemma RedactsRest(prefix: string, rest: string)
    requires SchemeAndRest(prefix, rest)
    ensures RedactDSN(prefix + rest) == prefix + RedactRest(rest)
  {
    BehindScheme(prefix + rest);
    assert prefix == "" ==> prefix + rest == rest && prefix + RedactRest(rest) == RedactRest(rest);
    assert prefix != "" ==> (prefix + rest)[..|prefix|] == prefix && (prefix + rest)[|prefix|..] == rest;
  }

  /** Of any text, nothing is changed when no ':' stands before the first '@' behind the scheme, or there is no '@'. */
  lemma NothingToMask(prefix: string, rest: string)
    requires SchemeAndRest(prefix, rest)
    requires forall at :: 0 <= at < |rest| && rest[at] == '@' && '@' !in rest[..at] ==> ':' !in rest[..at]
    ensures RedactDSN(prefix + rest) == prefix + rest
  {
    RedactsRest(prefix, rest);
    NoChar(rest, '@');
    if '@' in rest {
      NoChar(rest[..Index(rest, "@")], ':');
    }
  }

  /** Otherwise what stands between the first ':' and the first '@' is replaced, and nothing else. */
  lemma SecretMasked(prefix: string, user: string, secret: string, tail: string, rest: string)
    requires rest == user + ":" + secret + "@" + tail && SchemeAndRest(prefix, rest)
    requires ':' !in user && '@' !in user && '@' !in secret
    ensures RedactDSN(prefix + rest) == prefix + (user + ":" + "xxxxx" + "@" + tail)
  {
    RedactsRest(prefix, rest);
    Pieces(user, secret, tail);
  }

  /** On every string: with a scheme or without, whether or not anything is masked. */
  lemma RedactIdempotent(raw: string)
    ensures RedactDSN(RedactDSN(raw)) == RedactDSN(raw)
  {
    var schemeEnd := Index(raw, "://");
    if schemeEnd >= 0 {
      var scheme, rest := raw[..schemeEnd], raw[schemeEnd + 3..];
      assert raw == scheme + "://" + rest;
      var red := RedactRest(rest);
      RedactBehind(scheme, rest);
      SchemeStays(scheme, rest, red);
      RedactBehind(scheme, red);
      RestIdempotent(rest);
    } else {
      BehindScheme(raw);
      NoNewScheme(raw);
      BehindScheme(RedactDSN(raw));
      RestIdempotent(raw);
    }
  }

  lemma SchemeFirst(scheme: string, rest: string)
    requires ':' !in scheme
    ensures Index(scheme + "://" + rest, "://") == |scheme|
  {
    var raw := scheme + "://" + rest;
    assert raw[|scheme|..|scheme| + 3] == "://";
    forall j | 0 <= j < |scheme| ensures !OccursAt(raw, "://", j) {
      assert raw[j] == scheme[j];
      NotHere(raw, j);
    }
    IndexIs(raw, "://", |scheme|);
  }

  /**
   The userinfo shape of section 3.2.1 of RFC 3986: only the password changes, and what comes
   out does not depend on it, whatever it contains besides '@'.
   */
  lemma PasswordMasked(scheme: string, user: string, pw: string, tail: string)
    requires ':' !in scheme && ':' !in user && '@' !in user && '@' !in pw
    ensures RedactDSN(scheme + "://" + (user + ":" + pw + "@" + tail))
            == scheme + "://" + (user + ":" + MASK + "@" + tail)
  {
    var rest := user + ":" + pw + "@" + tail;
    SchemeFirst(scheme, rest);
    RedactBehind(scheme, rest);
    Pieces(user, pw, tail);
  }

  function Dsn(scheme: string, user: string, pw: string, tail: string): string {
    scheme + "://" + (user + ":" + pw + "@" + tail)
  }

  lemma SplitAt(a: string, colon: string, b: string, at: string, c: string, d: string)
    ensures a + colon + (b + at + c) + at + d == a + colon + b + at + (c + at + d)
  {
  }

  lemma FirstInFront(a: string, b: string, at: nat)
    requires at < |a| && a[at] == '@' && '@' !in a[..at]
    ensures Index(a + b, "@") == at && (a + b)[..at] == a[..at]
  {
    assert forall j :: 0 <= j < at ==> (a + b)[j] == a[..at][j];
    FirstChar(a + b, '@', at);
  }

  /** With an '@' in front of the first ':' nothing is masked. */
  lemma RestKept(user: string, more: string)
    requires ':' !in user && '@' in user
    ensures RedactRest(user + more) == user + more
  {
    NoChar(user, '@');
    var at := Index(user, "@");
    FirstInFront(user, more, at);
    assert forall c :: c in user[..at] ==> c in user;
    NoChar(user[..at], ':');
  }

  lemma PasswordLast(user: string, pw: string, tail: string)
    ensures user + ":" + pw + "@" + tail == user + (":" + pw + "@" + tail)
  {
  }

  /** With an '@' in the user name the first '@' comes before the ':', and nothing is masked at all. */
  lemma UserHidesPassword(scheme: string, user: string, pw: string, tail: string)
    requires ':' !in scheme && ':' !in user && '@' in user
    ensures RedactDSN(Dsn(scheme, user, pw, tail)) == Dsn(scheme, user, pw, tail)
  {
    var rest := user + ":" + pw + "@" + tail;
    SchemeFirst(scheme, rest);
    RedactBehind(scheme, rest);
    PasswordLast(user, pw, tail);
    RestKept(user, ":" + pw + "@" + tail);
  }

  /**
   What becomes of a password that holds an '@': behind a user name without one it is masked up
   to the first and its rest is left over, behind any other it is left as it is.
   */
  lemma MaskedUpTo(scheme: string, user: string, first: string, rest: string, tail: string)
    requires ':' !in scheme && ':' !in user && '@' !in first
    ensures RedactDSN(Dsn(scheme, user, first + "@" + rest, tail))
         == if '@' in user then Dsn(scheme, user, first + "@" + rest, tail)
            else Dsn(scheme, user, MASK, rest + "@" + tail)
  {
    if '@' in user {
      UserHidesPassword(scheme, user, first + "@" + rest, tail);
    } else {
      SplitAt(user, ":", first, "@", rest, tail);
      PasswordMasked(scheme, user, first, rest + "@" + tail);
    }
  }

  /** The mask may be left as it is; any other password must be found between the right ':' and '@'. */
  predicate Masked(user: string, pw: string) {
    pw == MASK || ('@' !in user && '@' !in pw)
  }

  lemma SamePassword(scheme: string, user: string, pw: string, pw': string, tail: string)
    requires Dsn(scheme, user, pw, tail) == Dsn(scheme, user, pw', tail)
    ensures pw == pw'
  {
    var d, n := Dsn(scheme, user, pw, tail), |scheme| + 3 + |user| + 1;
    assert |pw| == |pw'|;
    assert d[n..n + |pw|] == pw && Dsn(scheme, user, pw', tail)[n..n + |pw|] == pw';
  }

  /**
   The DSN comes out with the password masked and nothing else changed exactly when neither the
   user name nor the password holds an '@', or the password is the mask. url.Parse allows '@' in
   both, and takes the last one as the separator.
   */
  lemma PasswordMaskedExactly(scheme: string, user: string, pw: string, tail: string)
    requires ':' !in scheme && ':' !in user
    ensures RedactDSN(Dsn(scheme, user, pw, tail)) == Dsn(scheme, user, MASK, tail) <==> Masked(user, pw)
  {
    if '@' in user {
      UserHidesPassword(scheme, user, pw, tail);
      if Dsn(scheme, user, pw, tail) == Dsn(scheme, user, MASK, tail) {
        SamePassword(scheme, user, pw, MASK, tail);
      }
    } else if '@' in pw {
      NoChar(pw, '@');
      var at := Index(pw, "@");
      var first, rest := pw[..at], pw[at + 1..];
      assert pw == first + "@" + rest;
      MaskedUpTo(scheme, user, first, rest, tail);
      assert |Dsn(scheme, user, MASK, rest + "@" + tail)| > |Dsn(scheme, user, MASK, tail)|;
      MaskHasNoAt();
    } else {
      PasswordMasked(scheme, user, pw, tail);
    }
  }

  lemma Literals(scheme: string, plain: string, user: string, pw: string)
    requires scheme == "clickhouse" && plain == "u" && user == "ops@corp" && pw == "p@ss"
    ensures ':' !in scheme && ':' !in plain && ':' !in user && '@' !in plain && '@' in user
    ensures pw == "p" + "@" + "ss" && '@' !in "p"
  {
    assert user[3] == '@';
  }

  /** What is left over of a password with an '@', and all of one behind a user name with an '@'. */
  lemma PasswordLeaks(scheme: string, plain: string, user: string, pw: string, tail: string)
    requires scheme == "clickhouse" && plain == "u" && user == "ops@corp" && pw == "p@ss"
    ensures RedactDSN(Dsn(scheme, plain, pw, tail)) == Dsn(scheme, plain, MASK, "ss" + "@" + tail)
    ensures RedactDSN(Dsn(scheme, user, "secret", tail)) == Dsn(scheme, user, "secret", tail)
  {
    Literals(scheme, plain, user, pw);
    MaskedUpTo(scheme, plain, "p", "ss", tail);
    UserHidesPassword(scheme, user, "secret", tail);
  }

  // ---- error messages that echo the DSN -----------------------------------------------------

  /** strings.ReplaceAll for a non-empty pattern: occurrences from the left, without overlap. */
  function ReplaceEach(s: string, pat: string, rep: string): string
    requires pat != ""
    decreases |s|
  {
    var k := Index(s, pat);
    if k < 0 then s else s[..k] + rep + ReplaceEach(s[k + |pat|..], pat, rep)
  }

  /** RedactDSNError's message; replacing the empty DSN by itself changes nothing. */
  function RedactMessage(msg: string, raw: string): string {
    if raw == "" then msg else ReplaceEach(msg, raw, RedactDSN(raw))
  }

  /** strings.Join */
  function Join(pieces: seq<string>, sep: string): string
    requires pieces != []
  {
    if |pieces| == 1 then pieces[0] else pieces[0] + sep + Join(pieces[1..], sep)
  }

  /** Reading from the left, `sep` is found exactly between the pieces. */
  ghost predicate Splits(pieces: seq<string>, sep: string) {
    && pieces != []
    && (forall i :: 0 <= i < |pieces| - 1 ==> Index(pieces[i] + sep, sep) == |pieces[i]|)
    && Index(pieces[|pieces| - 1], sep) < 0
  }

  /** Where `sep` is found first does not depend on what follows it. */
  lemma FoundAtPiece(piece: string, sep: string, rest: string)
    requires Index(piece + sep, sep) == |piece|
    ensures Index(piece + sep + rest, sep) == |piece|
  {
    var a, b := piece + sep, piece + sep + rest;
    assert b[|piece|..|piece| + |sep|] == sep;
    forall j | 0 <= j < |piece| ensures !OccursAt(b, sep, j) {
      assert !OccursAt(a, sep, j);
      assert a[j..j + |sep|] == b[j..j + |sep|];
    }
    IndexIs(b, sep, |piece|);
  }

  /** Replacing rejoins the same pieces. */
  lemma {:induction false} ReplaceJoins(pieces: seq<string>, pat: string, rep: string)
    requires pat != "" && Splits(pieces, pat)
    ensures ReplaceEach(Join(pieces, pat), pat, rep) == Join(pieces, rep)
  {
    if |pieces| > 1 {
      var piece, rest := pieces[0], Join(pieces[1..], pat);
      FoundAtPiece(piece, pat, rest);
      assert (piece + pat + rest)[|piece| + |pat|..] == rest && (piece + pat + rest)[..|piece|] == piece;
      ReplaceJoins(pieces[1..], pat, rep);
    }
  }

  /** Every text falls into such pieces. */
  lemma {:induction false} SplitExists(s: string, sep: string) returns (pieces: seq<string>)
    requires sep != ""
    ensures Splits(pieces, sep) && s == Join(pieces, sep)
    decreases |s|
  {
    var k := Index(s, sep);
    if k < 0 {
      pieces := [s];
    } else {
      var rest := s[k + |sep|..];
      var more := SplitExists(rest, sep);
      var piece := s[..k];
      assert s == piece + sep + rest;
      assert piece + sep == s[..k + |sep|];
      forall j | 0 <= j < k ensures !OccursAt(piece + sep, sep, j) {
        assert !OccursAt(s, sep, j);
        assert s[..k + |sep|][j..j + |sep|] == s[j..j + |sep|];
      }
      assert (piece + sep)[k..k + |sep|] == sep;
      IndexIs(piece + sep, sep, k);
      pieces := [piece] + more;
      assert pieces[1..] == more;
    }
  }

  /**
   Any message, around any DSN: what surrounds its occurrences stays, each of them is redacted.
   An empty DSN leaves the message as it is.
   */
  lemma MessageRedacted(msg: string, raw: string) returns (pieces: seq<string>)
    ensures raw == "" ==> RedactMessage(msg, raw) == msg
    ensures raw != "" ==>
              Splits(pieces, raw) && msg == Join(pieces, raw) && RedactMessage(msg, raw) == Join(pieces, RedactDSN(raw))
  {
    pieces := [];
    if raw != "" {
      pieces := SplitExists(msg, raw);
      ReplaceJoins(pieces, raw, RedactDSN(raw));
    }
  }

  lemma {:induction false} JoinLength(pieces: seq<string>, a: string, b: string)
    requires pieces != []
    ensures |a| < |b| && |pieces| > 1 ==> |Join(pieces, a)| < |Join(pieces, b)|
    ensures |a| <= |b| ==> |Join(pieces, a)| <= |Join(pieces, b)|
  {
    if |pieces| > 1 {
      JoinLength(pieces[1..], a, b);
    }
  }

  /** Texts joined by different separators differ. */
  lemma JoinDecides(pieces: seq<string>, a: string, b: string)
    requires |pieces| > 1 && Join(pieces, a) == Join(pieces, b)
    ensures a == b
  {
    JoinLength(pieces, a, b);
    JoinLength(pieces, b, a);
    var n := |pieces[0]|;
    assert Join(pieces, a)[n..n + |a|] == a && Join(pieces, b)[n..n + |b|] == b;
  }

  /** A message that echoes the DSN comes out with the password masked everywhere under the same condition. */
  lemma MessageMaskedExactly(scheme: string, user: string, pw: string, tail: string, pieces: seq<string>)
    requires ':' !in scheme && ':' !in user
    requires Splits(pieces, Dsn(scheme, user, pw, tail)) && |pieces| > 1
    ensures var raw := Dsn(scheme, user, pw, tail);
            RedactMessage(Join(pieces, raw), raw) == Join(pieces, Dsn(scheme, user, MASK, tail)) <==> Masked(user, pw)
  {
    var raw, masked := Dsn(scheme, user, pw, tail), Dsn(scheme, user, MASK, tail);
    ReplaceJoins(pieces, raw, RedactDSN(raw));
    PasswordMaskedExactly(scheme, user, pw, tail);
    if RedactDSN(raw) != masked && Join(pieces, RedactDSN(raw)) == Join(pieces, masked) {
      JoinDecides(pieces, RedactDSN(raw), masked);
    }
  }
}
