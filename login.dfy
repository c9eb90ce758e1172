/**
 * The login page: the UTF-8 bytes of "user:password" are hashed with the
 * page's SHA-256 and compared with the configured administrator hash. A
 * session flag in the browser's storage lets a logged-in visitor straight
 * through to the console.
 */
module Login {
  import opened Wrappers
  import Text
  import Sha256

  type Byte = Sha256.Byte

  // ------------------------------------------------------------------ UTF-8

  /** The values of TextEncoder's bytes for one character (a Unicode scalar value). */
  function CharCodes(c: char): (r: seq<nat>)
    ensures 1 <= |r| <= 4 && forall i | 0 <= i < |r| :: r[i] < 0x100
    ensures |r| == 1 <==> c as int < 0x80
    ensures |r| == 1 ==> r[0] == c as int
    ensures |r| > 1 ==> 0xC0 <= r[0] < 0xF8
    ensures forall i | 1 <= i < |r| :: 0x80 <= r[i] < 0xC0
  {
    var n := c as int;
    if n < 0x80 then [n]
    else if n < 0x800 then [0xC0 + n / 0x40, 0x80 + n % 0x40]
    else if n < 0x1_0000 then [0xE0 + n / 0x1000, 0x80 + n / 0x40 % 0x40, 0x80 + n % 0x40]
    else [0xF0 + n / 0x4_0000, 0x80 + n / 0x1000 % 0x40, 0x80 + n / 0x40 % 0x40, 0x80 + n % 0x40]
  }

  /** The values of a string's UTF-8 bytes, character after character. */
  function Utf8Codes(s: string): (r: seq<nat>)
    ensures |s| <= |r| <= 4 * |s| && forall i | 0 <= i < |r| :: r[i] < 0x100
  {
    if s == "" then [] else CharCodes(s[0]) + Utf8Codes(s[1..])
  }

  /** new TextEncoder().encode(s) as bytes. */
  function Utf8(s: string): (r: seq<Byte>)
  {
    var codes := Utf8Codes(s);
    seq(|codes|, i requires 0 <= i < |codes| => codes[i] as Byte)
  }

  /** Encoding distributes over concatenation. */
  lemma {:induction false} Utf8Append(a: string, b: string)
    ensures Utf8Codes(a + b) == Utf8Codes(a) + Utf8Codes(b)
  {
    if a == "" {
      assert a + b == b;
    } else {
      assert (a + b)[0] == a[0] && (a + b)[1..] == a[1..] + b;
      Utf8Append(a[1..], b);
      calc {
        Utf8Codes(a + b);
        CharCodes(a[0]) + Utf8Codes(a[1..] + b);
        CharCodes(a[0]) + (Utf8Codes(a[1..]) + Utf8Codes(b));
        Utf8Codes(a) + Utf8Codes(b);
      }
    }
  }

  /** ASCII text encodes as its character codes, one byte each. */
  lemma {:induction false} Utf8Ascii(s: string)
    requires forall i | 0 <= i < |s| :: s[i] as int < 0x80
    ensures Utf8Codes(s) == seq(|s|, i requires 0 <= i < |s| => s[i] as int)
  {
    if s != "" {
      Utf8Ascii(s[1..]);
    }
  }

  /** A byte below 0x80 begins a character and is that whole character: ASCII bytes never occur inside a multi-byte sequence. */
  lemma {:induction false} Utf8AsciiBytes(s: string, k: nat)
    requires k < |Utf8Codes(s)| && Utf8Codes(s)[k] < 0x80
    ensures exists i :: 0 <= i < |s| && s[i] as int == Utf8Codes(s)[k]
  {
    var head := CharCodes(s[0]);
    if k < |head| {
      assert k == 0 && s[0] as int == head[0];
    } else {
      assert Utf8Codes(s)[k] == Utf8Codes(s[1..])[k - |head|];
      Utf8AsciiBytes(s[1..], k - |head|);
      var i :| 0 <= i < |s[1..]| && s[1..][i] as int == Utf8Codes(s)[k];
      assert s[i + 1] == s[1..][i];
    }
  }

  // ----------------------------------------------------------------- hashing

  /**
   * sha256Hex with only its fallback path: the page's own SHA-256 of the
   * string's UTF-8 bytes, which is FIPS 180-4's for any string below 2^29
   * bytes.
   */
  method Sha256Hex(str: string) returns (hex: string)
    ensures hex == Sha256.PageDigest(Utf8(str))
    ensures |Utf8(str)| < 0x2000_0000 ==> hex == Sha256.HexDigest(Utf8(str))
  {
    hex := Sha256.Sha256HexJs(Utf8(str));
  }

  // ---------------------------------------------------------- configuration

  /** A field of the /api/config reply: missing, a string, or another JSON value with its truthiness. */
  datatype Field = Absent | Str(s: string) | Other(truthy: bool)

  /** JavaScript truthiness: a missing field and the empty string are falsy. */
  predicate Truthy(v: Field)
  {
    match v
    case Absent => false
    case Str(s) => s != ""
    case Other(t) => t
  }

  datatype Config = Config(adminHashSha256: Field, adminHash: Field)

  /** getConfig's {} when the request or the JSON parse fails. */
  const EmptyConfig := Config(Absent, Absent)

  /** getConfig: the parsed reply, or the empty object on any failure. */
  function GetConfig(reply: Option<Config>): (cfg: Config)
    ensures reply.None? ==> !Truthy(cfg.adminHashSha256) && !Truthy(cfg.adminHash)
    ensures reply.Some? ==> cfg == reply.value
  {
    reply.GetOr(EmptyConfig)
  }

  /** The built-in user name and password. */
  const DefaultUser := "admin"
  const DefaultPassword := "fsefmgftc"

  /** The built-in credential 'admin:fsefmgftc', whose hash is accepted when nothing is configured. */
  const DefaultCredential := DefaultUser + ":" + DefaultPassword

  /** cfg.admin_hash_sha256 || cfg.admin_hash || defaultHash. */
  function AllowHash(cfg: Config, defaultHash: string): (r: Field)
    ensures Truthy(cfg.adminHashSha256) ==> r == cfg.adminHashSha256
    ensures !Truthy(cfg.adminHashSha256) && Truthy(cfg.adminHash) ==> r == cfg.adminHash
    ensures !Truthy(cfg.adminHashSha256) && !Truthy(cfg.adminHash) ==> r == Str(defaultHash)
  {
    if Truthy(cfg.adminHashSha256) then cfg.adminHashSha256
    else if Truthy(cfg.adminHash) then cfg.adminHash
    else Str(defaultHash)
  }

  /** The string that is hashed: the trimmed user name, a colon, the password as typed. */
  function Credential(user: string, pass: string): string
  {
    Text.TrimJs(user) + ":" + pass
  }

  /** h === allowHash: only a string equal to the page's digest of the credential. */
  predicate Accepts(allow: Field, user: string, pass: string)
  {
    allow == Str(Sha256.PageDigest(Utf8(Credential(user, pass))))
  }

  /** The hash accepted for a configuration, defaulting to the built-in credential's. */
  function Allowed(cfg: Config): Field
  {
    AllowHash(cfg, Sha256.PageDigest(Utf8(DefaultCredential)))
  }

  /** The allowed hash as the page computes it, hashing the built-in credential for the default. */
  method AllowedHash(cfg: Config) returns (r: Field)
    ensures r == Allowed(cfg)
  {
    var defaultHash := Sha256Hex(DefaultCredential);
    r := AllowHash(cfg, defaultHash);
  }

  // ---------------------------------------------------------------- lemmas

  /** The allowed hash is always truthy: the default is 64 hex digits. */
  lemma AllowedTruthy(cfg: Config)
    ensures Truthy(Allowed(cfg))
  {
    var d := Sha256.PageDigest(Utf8(DefaultCredential));
    assert |d| == 64;
  }

  /** With neither field set (or no reply at all), "admin" / "fsefmgftc" logs in. */
  lemma DefaultCredentialAccepted(cfg: Config)
    requires !Truthy(cfg.adminHashSha256) && !Truthy(cfg.adminHash)
    ensures Accepts(Allowed(cfg), "admin", "fsefmgftc")
  {
    DefaultCredentialSpelled();
  }

  /** Spaces around the user name are trimmed away before hashing. */
  lemma PaddedUserAccepted(cfg: Config)
    requires !Truthy(cfg.adminHashSha256) && !Truthy(cfg.adminHash)
    ensures Accepts(Allowed(cfg), " admin ", "fsefmgftc")
  {
    DefaultCredentialSpelled();
  }

  /** The user name "admin", with or without surrounding spaces, and the password "fsefmgftc" spell the built-in credential. */
  lemma DefaultCredentialSpelled()
    ensures Credential("admin", "fsefmgftc") == DefaultCredential
    ensures Credential(" admin ", "fsefmgftc") == DefaultCredential
  {
    TrimAdmin();
    TrimPaddedAdmin();
  }

  lemma TrimAdmin()
    ensures Text.TrimJs("admin") == "admin"
  {
    var s := "admin";
    assert !Text.IsJsSpace(s[0]) && !Text.IsJsSpace(s[|s| - 1]);
    assert Text.DropLeading(s, Text.IsJsSpace) == s;
  }

  lemma TrimPaddedAdmin()
    ensures Text.TrimJs(" admin ") == "admin"
  {
    LeadingSpaceDropped();
    TrailingSpaceDropped();
  }

  lemma LeadingSpaceDropped()
    ensures Text.DropLeading(" admin ", Text.IsJsSpace) == "admin "
  {
    var s := " admin ";
    assert Text.IsJsSpace(s[0]) && s[1..] == "admin ";
    assert !Text.IsJsSpace("admin "[0]);
  }

  lemma TrailingSpaceDropped()
    ensures Text.DropTrailing("admin ", Text.IsJsSpace) == "admin"
  {
    assert Text.IsJsSpace("admin "[5]) && "admin "[..5] == "admin";
    assert !Text.IsJsSpace("admin"[4]);
  }


  /**
   * A non-empty admin_hash_sha256 string decides alone: the credential is
   * accepted exactly when its digest is that string, whatever admin_hash and
   * the default say.
   */
  lemma ConfiguredHashDecides(cfg: Config, user: string, pass: string)
    requires cfg.adminHashSha256.Str? && cfg.adminHashSha256.s != ""
    ensures Accepts(Allowed(cfg), user, pass)
        <==> Sha256.PageDigest(Utf8(Credential(user, pass))) == cfg.adminHashSha256.s
  {
  }

  /** admin_hash is used only when admin_hash_sha256 is falsy. */
  lemma LegacyHashDecides(cfg: Config, user: string, pass: string)
    requires !Truthy(cfg.adminHashSha256) && cfg.adminHash.Str? && cfg.adminHash.s != ""
    ensures Accepts(Allowed(cfg), user, pass)
        <==> Sha256.PageDigest(Utf8(Credential(user, pass))) == cfg.adminHash.s
  {
  }

  /** A configured hash that is not a string (a number, say) lets nobody in. */
  lemma NonStringHashLocksOut(cfg: Config, user: string, pass: string)
    requires Allowed(cfg).Other?
    ensures !Accepts(Allowed(cfg), user, pass)
  {
  }

  /** A configured hash that is not 64 lowercase hex digits lets nobody in. */
  lemma MalformedHashLocksOut(cfg: Config, user: string, pass: string, i: nat)
    requires Allowed(cfg).Str? && i < |Allowed(cfg).s| && !Sha256.IsHexDigit(Allowed(cfg).s[i])
    ensures !Accepts(Allowed(cfg), user, pass)
  {
    var d := Sha256.PageDigest(Utf8(Credential(user, pass)));
    if i < |d| {
      assert Sha256.IsHexDigit(d[i]);
    }
    assert Allowed(cfg).s != d;
  }

  /** For credentials below 2^29 bytes the comparison is with the FIPS 180-4 digest. */
  lemma AcceptsFipsDigest(allow: Field, user: string, pass: string)
    requires |Utf8(Credential(user, pass))| < 0x2000_0000
    ensures Accepts(allow, user, pass) <==> allow == Str(Sha256.HexDigest(Utf8(Credential(user, pass))))
  {
    Sha256.PageDigestIsFips(Utf8(Credential(user, pass)));
  }

  // ------------------------------------------------------------------ page

  /** The hint shown after a failed attempt ("wrong account or password"). */
  const WrongCredentials := "账号或密码错误"

  /** The page's state: the stored session flag, the location, the hint text and the click handler's hash. */
  class LoginPage {
    var session: Option<string>
    var href: string
    var hint: string
    var allowHash: Field
    var listening: bool

    constructor(session: Option<string>, href: string)
      ensures this.session == session && this.href == href && hint == "" && !listening
    {
      this.session := session;
      this.href := href;
      hint := "";
      allowHash := Absent;
      listening := false;
    }

    /**
     * init: a stored session goes straight to the console; otherwise the
     * configuration is fetched, the allowed hash fixed and the button wired.
     */
    method Init(reply: Option<Config>)
      modifies this`href, this`allowHash, this`listening
      ensures old(session) == Some("ok") ==> href == "index.html" && listening == old(listening) && allowHash == old(allowHash)
      ensures old(session) != Some("ok") ==> href == old(href) && listening && allowHash == Allowed(GetConfig(reply))
    {
      if session == Some("ok") {
        href := "index.html";
      } else {
        Wire(reply);
      }
    }

    /** Fix the allowed hash from the configuration reply and attach the click handler. */
    method Wire(reply: Option<Config>)
      modifies this`allowHash, this`listening
      ensures listening && allowHash == Allowed(GetConfig(reply))
    {
      var cfg := GetConfig(reply);
      allowHash := AllowedHash(cfg);
      listening := true;
    }

    /** The login button: hash the credential, then store the session and leave, or show the hint. */
    method Click(user: string, pass: string)
      requires listening
      modifies this
      ensures listening && allowHash == old(allowHash)
      ensures Accepts(allowHash, user, pass) ==> session == Some("ok") && href == "index.html" && hint == old(hint)
      ensures !Accepts(allowHash, user, pass) ==> session == old(session) && href == old(href) && hint == WrongCredentials
    {
      var u := Text.TrimJs(user);
      var h := Sha256Hex(u + ":" + pass);
      if Str(h) == allowHash {
        session := Some("ok");
        href := "index.html";
      } else {
        hint := WrongCredentials;
      }
    }
  }

  /** After init without a session, the default credential logs in unless a hash is configured. */
  method DefaultLoginFlow(reply: Option<Config>) returns (page: LoginPage)
    requires reply.None? || (!Truthy(reply.value.adminHashSha256) && !Truthy(reply.value.adminHash))
    ensures fresh(page) && page.session == Some("ok") && page.href == "index.html"
  {
    page := new LoginPage(None, "login.html");
    page.Init(reply);
    DefaultCredentialAccepted(GetConfig(reply));
    page.Click("admin", "fsefmgftc");
  }
}
