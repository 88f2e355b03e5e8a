/**
 * Password truncation in backend/app/core/auth.py: bcrypt reads at most 72
 * bytes, so `_truncate_password` cuts the UTF-8 encoding to 72 bytes and then
 * drops bytes one at a time until what is left decodes, and both hashing and
 * verification go through it. The bcrypt hash and check are library calls and
 * come in as functions.
 */
module Auth {
  import opened Wrappers
  import opened Utf8

  const BcryptMaxBytes: nat := 72

  /** The longest run of whole leading characters whose encoding fits in `maxBytes`. */
  function Truncated(password: string, maxBytes: nat): (r: string)
    ensures r <= password
  {
    password[..FitCount(password, maxBytes)]
  }

  /** `_truncate_password`. */
  method TruncatePassword(password: string, maxBytes: nat) returns (r: string)
    ensures r == Truncated(password, maxBytes)
  {
    var bytes := Encode(password);
    if |bytes| <= maxBytes {
      WidthPrefix(password, |password|);
      FitCountUnique(password, maxBytes, |password|);
      assert password[..|password|] == password;
      return password;
    }
    var truncated := bytes[..maxBytes];
    while truncated != []
      invariant |truncated| <= maxBytes
      invariant truncated == bytes[..|truncated|]
      invariant FitCount(password, |truncated|) == FitCount(password, maxBytes)
      decreases |truncated|
    {
      var k := |truncated|;
      DecodePrefix(password, k);
      var decoded := Decode(truncated);
      if decoded.Some? {
        return decoded.value;
      }
      FitCountLongest(password, k);
      FitCountUnique(password, k - 1, FitCount(password, k));
      truncated := truncated[..k - 1];
    }
    return "";
  }

  /* ---------------- What the truncation promises ---------------- */

  /** A password that fits is kept as it is. */
  lemma TruncatedShort(password: string, maxBytes: nat)
    requires |Encode(password)| <= maxBytes
    ensures Truncated(password, maxBytes) == password
  {
    WidthPrefix(password, |password|);
    FitCountUnique(password, maxBytes, |password|);
    assert password[..|password|] == password;
  }

  /**
   * The result fits, its bytes are the first bytes of the password's, it
   * stops on a character boundary (those bytes decode back to it), and one
   * more character would not fit.
   */
  lemma TruncatedFits(password: string, maxBytes: nat)
    ensures var r := Truncated(password, maxBytes);
            |Encode(r)| <= maxBytes &&
            Encode(r) <= Encode(password) &&
            Decode(Encode(password)[..|Encode(r)|]) == Some(r) &&
            (|r| < |password| ==> |Encode(password[..|r| + 1])| > maxBytes)
  {
    var j := FitCount(password, maxBytes);
    var r := password[..j];
    FitCountLongest(password, maxBytes);
    EncodeAppend(r, password[j..]);
    assert r + password[j..] == password;
    DecodeEncode(r);
  }

  /** A prefix that fits is no longer than the one `FitCount` finds. */
  lemma {:induction false} FitCountMax(s: string, k: nat, j: nat)
    requires j <= |s| && Width(s, j) <= k
    ensures j <= FitCount(s, k)
  {
    if j > 0 {
      WidthNext(s, j - 1);
      FitCountMax(s[1..], k - |EncodeChar(s[0])|, j - 1);
    }
  }

  /** `k` bytes of a password that decode to `t` end where `t`'s characters end. */
  lemma DecodedPrefix(s: string, k: nat, t: string)
    requires k <= |Encode(s)| && Decode(Encode(s)[..k]) == Some(t)
    ensures t == s[..FitCount(s, k)] && Width(s, |t|) == k
  {
    DecodePrefix(s, k);
  }

  /** What `a` keeps, `b` keeps as well when their first `maxBytes` bytes agree. */
  lemma SharedPrefixKept(a: string, b: string, maxBytes: nat)
    requires |Encode(a)| >= maxBytes && |Encode(b)| >= maxBytes
    requires Encode(a)[..maxBytes] == Encode(b)[..maxBytes]
    ensures FitCount(a, maxBytes) <= FitCount(b, maxBytes)
    ensures a[..FitCount(a, maxBytes)] == b[..FitCount(a, maxBytes)]
  {
    var ja := FitCount(a, maxBytes);
    var ka := Width(a, ja);
    FitCountLongest(a, maxBytes);
    WidthPrefix(a, ja);
    assert Encode(b)[..ka] == Encode(a)[..ka];
    DecodeEncode(a[..ja]);
    DecodedPrefix(b, ka, a[..ja]);
    FitCountMax(b, maxBytes, ja);
  }

  /** Two passwords whose encodings agree on their first `maxBytes` bytes truncate to the same string. */
  lemma SharedPrefixSameTruncation(a: string, b: string, maxBytes: nat)
    requires |Encode(a)| >= maxBytes && |Encode(b)| >= maxBytes
    requires Encode(a)[..maxBytes] == Encode(b)[..maxBytes]
    ensures Truncated(a, maxBytes) == Truncated(b, maxBytes)
  {
    SharedPrefixKept(a, b, maxBytes);
    SharedPrefixKept(b, a, maxBytes);
  }

  /* ---------------- Hashing and verification ---------------- */

  /** `get_password_hash`: the hash of the truncated password. */
  method GetPasswordHash(password: string, hash: string -> string) returns (hashed: string)
    ensures hashed == hash(Truncated(password, BcryptMaxBytes))
  {
    var truncated := TruncatePassword(password, BcryptMaxBytes);
    hashed := hash(truncated);
  }

  /** `verify_password`: the check of the truncated password against the stored hash. */
  method VerifyPassword(plain: string, hashed: string, matches: (string, string) -> bool) returns (ok: bool)
    ensures ok == matches(Truncated(plain, BcryptMaxBytes), hashed)
  {
    var truncated := TruncatePassword(plain, BcryptMaxBytes);
    ok := matches(truncated, hashed);
  }

  /**
   * Hashing and verification truncate alike: a password verifies against its
   * own hash whenever the library's check accepts what its hash produced, and
   * any password sharing its first 72 bytes verifies against that hash too.
   */
  lemma HashThenVerify(a: string, b: string, hash: string -> string, matches: (string, string) -> bool)
    requires forall p :: matches(p, hash(p))
    requires a == b || (|Encode(a)| >= BcryptMaxBytes && |Encode(b)| >= BcryptMaxBytes &&
                        Encode(a)[..BcryptMaxBytes] == Encode(b)[..BcryptMaxBytes])
    ensures matches(Truncated(b, BcryptMaxBytes), hash(Truncated(a, BcryptMaxBytes)))
  {
    if a != b {
      SharedPrefixSameTruncation(a, b, BcryptMaxBytes);
    }
  }
}
