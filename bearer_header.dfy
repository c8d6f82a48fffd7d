/**
 * The `Authorization: Bearer <token>` format check shared by both gateways
 * (internal/middlewares/auth.go and middleware/auth.go): the header is split on
 * single spaces with Go's strings.Split and must give exactly ["Bearer", token].
 */
module BearerHeader {
  import opened Wrappers

  const Space: char := ' '

  /** The position of the first `c` in `s`. */
  function IndexOf(s: string, c: char): (i: nat)
    requires c in s
    ensures i < |s| && s[i] == c && c !in s[..i]
  {
    if s[0] == c then 0 else 1 + IndexOf(s[1..], c)
  }

  /** How many times `c` occurs in `s`. */
  function Count(s: string, c: char): nat
  {
    if s == [] then 0 else (if s[0] == c then 1 else 0) + Count(s[1..], c)
  }

  /** strings.Join: the parts with `sep` between each two of them. */
  function Join(parts: seq<string>, sep: char): string
  {
    if parts == [] then ""
    else if |parts| == 1 then parts[0]
    else parts[0] + [sep] + Join(parts[1..], sep)
  }

  /**
   * strings.Split with a one-character separator: the pieces between the
   * separators, one more piece than there are separators, empty pieces kept.
   */
  function Split(s: string, sep: char): (parts: seq<string>)
    ensures |parts| >= 1
    ensures forall i :: 0 <= i < |parts| ==> sep !in parts[i]
    ensures Join(parts, sep) == s
    decreases |s|
  {
    if sep !in s then [s]
    else
      var i := IndexOf(s, sep);
      var rest := Split(s[i + 1..], sep);
      assert Join([s[..i]] + rest, sep) == s[..i] + [sep] + Join(rest, sep) by {
        assert ([s[..i]] + rest)[1..] == rest;
      }
      assert s == s[..i] + [sep] + s[i + 1..];
      [s[..i]] + rest
  }

  lemma {:induction false} CountSplit(s: string, c: char, i: nat)
    requires i <= |s| && c !in s[..i]
    ensures Count(s, c) == Count(s[i..], c)
    decreases i
  {
    if i > 0 {
      assert s[0] != c by { assert s[0] == s[..i][0]; }
      assert s[1..][..i - 1] == s[..i][1..];
      CountSplit(s[1..], c, i - 1);
      assert s[1..][i - 1..] == s[i..];
    }
  }

  /** Split gives one more part than there are separators in the input. */
  lemma {:induction false} SplitLength(s: string, sep: char)
    ensures |Split(s, sep)| == Count(s, sep) + 1
    decreases |s|
  {
    if sep !in s {
      CountSplit(s, sep, |s|);
      assert s[|s|..] == [];
    } else {
      var i := IndexOf(s, sep);
      CountSplit(s, sep, i);
      assert s[i..][1..] == s[i + 1..];
      SplitLength(s[i + 1..], sep);
    }
  }

  /** Splitting a join of separator-free parts gives the parts back. */
  lemma {:induction false} SplitJoin(parts: seq<string>, sep: char)
    requires |parts| >= 1
    requires forall i :: 0 <= i < |parts| ==> sep !in parts[i]
    ensures Split(Join(parts, sep), sep) == parts
    decreases |parts|
  {
    if |parts| > 1 {
      var s := Join(parts, sep);
      assert s == parts[0] + [sep] + Join(parts[1..], sep);
      assert sep !in parts[0];
      assert s[|parts[0]|] == sep;
      var i := IndexOf(s, sep);
      assert i == |parts[0]|;
      assert s[..i] == parts[0];
      assert s[i + 1..] == Join(parts[1..], sep);
      SplitJoin(parts[1..], sep);
      assert Split(s, sep) == [parts[0]] + parts[1..];
    }
  }

  /** The token of a well-formed header: the second of exactly two parts, the first being "Bearer". */
  function ParseBearer(header: string): (r: Option<string>)
    ensures r.Some? ==> header == "Bearer " + r.value && Space !in r.value
  {
    var parts := Split(header, Space);
    if |parts| != 2 || parts[0] != "Bearer" then None else Some(parts[1])
  }

  /**
   * A header passes exactly when it is "Bearer", one space, and a token with no
   * space in it; the token it yields is that remainder, which may be empty.
   */
  lemma ParseBearerExact(header: string, token: string)
    ensures ParseBearer(header) == Some(token) <==> header == "Bearer " + token && Space !in token
  {
    if header == "Bearer " + token && Space !in token {
      assert header == Join(["Bearer", token], Space);
      SplitJoin(["Bearer", token], Space);
    }
    if ParseBearer(header) == Some(token) {
      var parts := Split(header, Space);
      assert parts == [parts[0], parts[1]];
      assert Join(parts, Space) == "Bearer" + [Space] + token;
    }
  }

  /** A header that is not "Bearer " followed by a space-free token is refused. */
  lemma RejectsOtherForms(header: string)
    requires !(|header| >= 7 && header[..7] == "Bearer " && Space !in header[7..])
    ensures ParseBearer(header) == None
  {
    if ParseBearer(header).Some? {
      var token := ParseBearer(header).value;
      ParseBearerExact(header, token);
    }
  }

  /** Headers the format check refuses: empty, no token, another scheme, too many spaces. */
  lemma RejectsEmpty()
    ensures ParseBearer("") == None
  {
    RejectsOtherForms("");
  }

  lemma RejectsBareScheme()
    ensures ParseBearer("Bearer") == None
  {
    RejectsOtherForms("Bearer");
  }

  lemma RejectsOtherScheme()
    ensures ParseBearer("Token abc") == None
  {
    assert "Token abc"[..7] != "Bearer " by { assert "Token abc"[0] == 'T'; }
    RejectsOtherForms("Token abc");
  }

  lemma RejectsThreeParts()
    ensures ParseBearer("Bearer a b") == None
  {
    assert Space in "Bearer a b"[7..] by { assert "Bearer a b"[7..][1] == Space; }
    RejectsOtherForms("Bearer a b");
  }

  lemma RejectsDoubleSpace()
    ensures ParseBearer("Bearer  abc") == None
  {
    assert Space in "Bearer  abc"[7..] by { assert "Bearer  abc"[7..][0] == Space; }
    RejectsOtherForms("Bearer  abc");
  }

  /** Headers the format check accepts, including an empty token after the space. */
  lemma AcceptedExamples()
    ensures ParseBearer("Bearer abc") == Some("abc")
    ensures ParseBearer("Bearer ") == Some("")
  {
    ParseBearerExact("Bearer abc", "abc");
    ParseBearerExact("Bearer ", "");
  }
}
