/**
 * What a payload location looks like, how it is normalised, and where an account keeps it, stated apart
 * from the functions that find it.
 */
module PayloadLocation {

  import opened Wrappers
  import opened Text
  import opened Tlv
  import opened BrCode

  // ---------------------------------------------------------------- recognising a location

  predicate Letter(c: char) {
    'a' <= c <= 'z' || 'A' <= c <= 'Z'
  }

  predicate Letters(s: string) {
    forall i | 0 <= i < |s| :: Letter(s[i])
  }

  predicate HostChars(s: string) {
    forall i | 0 <= i < |s| :: Letter(s[i]) || '0' <= s[i] <= '9' || s[i] == '.' || s[i] == '-'
  }

  /** A letter, host characters, a dot, letters, a slash, and anything. */
  ghost predicate DomainAndPath(value: string, host: string, top: string, path: string) {
    value == host + "." + top + "/" + path && |host| >= 2 && Letter(host[0]) && HostChars(host) && |top| >= 2 && Letters(top)
  }

  /** A value is a location if and only if it has a scheme, or is a domain name with a path. */
  lemma LocationExactly(value: string)
    ensures IsPayloadUrl(value)
       <==> || (exists rest :: value == "https://" + rest) || (exists rest :: value == "http://" + rest) || (exists rest :: value == "pix://" + rest)
            || exists host, top, path :: DomainAndPath(value, host, top, path)
  {
    StartsExactly(value, "https://");
    StartsExactly(value, "http://");
    StartsExactly(value, "pix://");
    DomainExactly(value);
    hide StartsWith, StartsWithDomain, DomainAndPath;
  }

  lemma StartsExactly(s: string, prefix: string)
    ensures StartsWith(s, prefix) <==> exists rest :: s == prefix + rest
  {
    if StartsWith(s, prefix) {
      assert s == prefix + s[|prefix|..];
    }
  }

  lemma DomainExactly(value: string)
    ensures StartsWithDomain(value) <==> exists host, top, path :: DomainAndPath(value, host, top, path)
  {
    if StartsWithDomain(value) {
      var slash := Find(value, "/").value;
      hide FindFrom, Find;
      var dot := DotOf(value[..slash]);
      var host, top, path := value[..dot], value[dot + 1..slash], value[slash + 1..];
      assert value[slash] == value[slash..slash + 1][0] == '/';
      assert value == host + "." + top + "/" + path;
      assert DomainAndPath(value, host, top, path);
    }
    if host, top, path :| DomainAndPath(value, host, top, path) {
      DomainIsFound(value, host, top, path);
    }
  }

  lemma DotOf(name: string) returns (dot: nat)
    requires IsDomain(name)
    ensures 2 <= dot && dot + 3 <= |name| && name[dot] == '.' && Letter(name[0]) && HostChars(name[..dot]) && Letters(name[dot + 1..])
  {
    dot :| 2 <= dot < |name| && IsLetter(name[0]) && name[dot] == '.' && (forall i | 0 < i < dot :: IsHostChar(name[i]))
           && |name| - dot > 2 && (forall i | dot < i < |name| :: IsLetter(name[i]));
  }

  lemma DomainIsFound(value: string, host: string, top: string, path: string)
    requires DomainAndPath(value, host, top, path)
    ensures StartsWithDomain(value)
  {
    var name := host + "." + top;
    assert value[|name|] == '/';
    assert OccursAt(value, "/", |name|);
    forall i: nat | i < |name|
      ensures !OccursAt(value, "/", i)
    {
      assert value[i] == name[i];
      assert name[i] != '/';
      assert value[i..i + 1][0] == value[i];
    }
    assert Find(value, "/") == Some(|name|);
    assert value[..|name|] == name;
    hide FindFrom, Find;
    assert name[|host|] == '.' && name[0] == host[0];
    assert forall i | 0 < i < |host| :: name[i] == host[i];
    assert forall i | |host| < i < |name| :: name[i] == top[i - |host| - 1];
    assert IsDomain(name);
  }

  // ---------------------------------------------------------------- normalising it

  /** Blanks around it aside: pix:// becomes https://, a text that begins with http stays as it is, and
      anything else gets https:// in front. */
  lemma NormalisedExactly(u: string, value: string, w: string)
    requires IsBlank(u) && IsBlank(w) && Trimmed(value) && value != ""
    ensures NormaliseUrl(u + value + w)
         == if |value| >= 6 && value[..6] == "pix://" then "https://" + value[6..]
            else if |value| >= 4 && value[..4] == "http" then value
            else "https://" + value
  {
    hide *;
    StripAround(u, value, w);
    StrippedIsNormalised(u + value + w, value);
  }

  lemma StrippedIsNormalised(url: string, value: string)
    requires Strip(url) == value
    ensures NormaliseUrl(url)
         == if |value| >= 6 && value[..6] == "pix://" then "https://" + value[6..]
            else if |value| >= 4 && value[..4] == "http" then value
            else "https://" + value
  {
    hide Strip;
  }

  // ---------------------------------------------------------------- where an account keeps it

  function Account(gui: string, key: string, location: string): string {
    Concat([Field("00", gui), Field("01", key), Field("25", location)])
  }

  /** An account that names the PIX arrangement, in capitals or not, holds the location of its sub-field 25
      if that has a slash, and otherwise that of its sub-field 01 if it is one; any other account, none. */
  lemma AccountExactly(gui: string, key: string, location: string)
    requires |gui| <= 99 && |key| <= 99 && |location| <= 99
    ensures BlockUrl(Account(gui, key, location))
         == if !(Contains(Upper(gui), "BCB.PIX") || Contains(Upper(gui), "BR.GOV.BCB")) then None
            else if exists i :: 0 <= i < |location| && location[i] == '/' then Some(NormaliseUrl(location))
            else if IsPayloadUrl(key) then Some(NormaliseUrl(key))
            else None
  {
    hide NormaliseUrl, IsPayloadUrl, Fields, Concat, Upper, Contains;
    var a, b, c := Field("00", gui), Field("01", key), Field("25", location);
    WalkOfConcat([a, b, c]);
    assert [a, b, c][..2] == [a, b] && [a, b][..1] == [a] && [a][..0] == [];
    assert LastWins([a]) == map["00" := gui];
    assert LastWins([a, b]) == map["00" := gui]["01" := key];
    assert LastWins([a, b, c]) == map["00" := gui]["01" := key]["25" := location];
  }

  /** An account without these sub-fields, and an empty one, has no location. */
  lemma BareAccountHasNone(gui: string)
    requires |gui| <= 99
    ensures BlockUrl(Concat([Field("00", gui)])) == None && BlockUrl("") == None
  {
    hide UrlOfAccount, Fields, Concat;
    var a := Field("00", gui);
    WalkOfConcat([a]);
    WalkOfConcat([]);
    NothingPrinted();
    assert [a][..0] == [];
    assert LastWins([a]) == map["00" := gui];
    NoLocationIn(map["00" := gui]);
    NoLocationIn(map[]);
  }

  lemma NothingPrinted()
    ensures Concat([]) == ""
  {
  }

  lemma NoLocationIn(sub: map<string, string>)
    requires "25" !in sub && "01" !in sub
    ensures UrlOfAccount(sub) == None
  {
    hide Upper, Contains;
    NothingIsNoLocation();
    hide IsPayloadUrl;
  }

  lemma NothingIsNoLocation()
    ensures !IsPayloadUrl("")
  {
  }
}
