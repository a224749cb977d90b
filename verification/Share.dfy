// resolve in internals/app/share/handler.go: which asset a public link opens.
module Share {
  import opened Base64Url
  import opened Basics
  import Tokens

  type JobId = string
  type AssetId = Bytes

  datatype Asset = Asset(job: JobId, kind: Kind)

  datatype Resolved = Served(id: AssetId, asset: Asset) | NotFound | Gone | Disabled

  predicate Blank(s: Bytes) {
    forall b :: b in s ==> b == 32 || 9 <= b <= 13
  }

  /** links holds, for every existing job, whether its public links are switched off. */
  function Resolve(mac: Tokens.Mac, assets: map<AssetId, Asset>, links: map<JobId, bool>,
                   tok: Bytes, purpose: Bytes, wantKind: Kind, now: int): Resolved {
    if Blank(tok) then NotFound
    else
      match Tokens.Verify(mac, purpose, tok, now)
      case Err(e) => if e.Expired? then Gone else NotFound
      case Ok(subject) =>
        if subject !in assets then NotFound
        else if assets[subject].kind != wantKind then NotFound
        else if assets[subject].job !in links then NotFound
        else if links[assets[subject].job] then Disabled
        else Served(subject, assets[subject])
  }

  /** An asset id as the database issues them: a UUID, so non-empty and without dots. */
  predicate ValidId(id: AssetId) {
    id != [] && Tokens.DOT !in id
  }

  lemma SignedLinkIsNotBlank(mac: Tokens.Mac, c: Tokens.Claim)
    ensures !Blank(Tokens.Token(mac, c))
  {
    assert Tokens.DOT in Tokens.Token(mac, c) by {
      assert Tokens.Token(mac, c)[|Tokens.Body(c)|] == Tokens.DOT;
    }
  }

  /** A link this server signed opens its asset exactly while the asset exists with the wanted
      kind, its job's links are on and the deadline has not passed. */
  lemma SignedLinkOpens(mac: Tokens.Mac, assets: map<AssetId, Asset>, links: map<JobId, bool>,
                        c: Tokens.Claim, wantKind: Kind, now: int)
    requires Tokens.WellFormed(c) && mac(Tokens.Body(c)) != []
    ensures Resolve(mac, assets, links, Tokens.Token(mac, c), c.purpose, wantKind, now).Served? <==>
              && now <= c.exp * Tokens.NANOS
              && c.subject in assets && assets[c.subject].kind == wantKind
              && assets[c.subject].job in links && !links[assets[c.subject].job]
    ensures var r := Resolve(mac, assets, links, Tokens.Token(mac, c), c.purpose, wantKind, now);
      r.Served? ==> r.id == c.subject && r.asset == assets[c.subject]
  {
    SignedLinkIsNotBlank(mac, c);
    Tokens.VerifyInvertsSign(mac, c, c.purpose, now);
  }

  lemma AuthenticIsNotBlank(mac: Tokens.Mac, tok: Bytes, raw: Bytes)
    requires Tokens.Authentic(mac, tok, raw)
    ensures !Blank(tok)
  {
    var body: Bytes, sig: Bytes :| tok == body + [Tokens.DOT] + sig;
    assert tok[|body|] == Tokens.DOT;
    assert Tokens.DOT in tok;
  }

  /** tok is authentic and says that purpose may see subject until exp. */
  ghost predicate Grants(mac: Tokens.Mac, tok: Bytes, purpose: Bytes, subject: Bytes, exp: int) {
    exists raw :: Tokens.Authentic(mac, tok, raw) && Tokens.Reads(raw, purpose, subject, exp)
  }

  lemma GrantIff(mac: Tokens.Mac, purpose: Bytes, tok: Bytes, now: int, subject: Bytes)
    ensures Tokens.Verify(mac, purpose, tok, now) == Tokens.Ok(subject)
            <==> exists exp :: Grants(mac, tok, purpose, subject, exp) && now <= exp * Tokens.NANOS
    ensures Tokens.Verify(mac, purpose, tok, now) == Tokens.Err(Tokens.Expired)
            <==> exists s, exp :: Grants(mac, tok, purpose, s, exp) && now > exp * Tokens.NANOS
  {
    hide Tokens.Verify, Tokens.Authentic, Tokens.Reads;
    Tokens.VerifiesIff(mac, purpose, tok, now, subject);
    Tokens.ExpiredIff(mac, purpose, tok, now);
    forall raw, s, exp | Tokens.Authentic(mac, tok, raw) && Tokens.Reads(raw, purpose, s, exp)
      ensures Grants(mac, tok, purpose, s, exp)
    {
    }
    forall s, exp | Grants(mac, tok, purpose, s, exp)
      ensures exists raw :: Tokens.Authentic(mac, tok, raw) && Tokens.Reads(raw, purpose, s, exp)
    {
    }
  }

  lemma GrantIsNotBlank(mac: Tokens.Mac, tok: Bytes, purpose: Bytes, subject: Bytes, exp: int)
    requires Grants(mac, tok, purpose, subject, exp)
    ensures !Blank(tok)
  {
    hide Tokens.Authentic, Tokens.Reads, Blank;
    var raw :| Tokens.Authentic(mac, tok, raw) && Tokens.Reads(raw, purpose, subject, exp);
    AuthenticIsNotBlank(mac, tok, raw);
  }

  /** For every token, signed or not: an asset is served exactly if the token grants it for this
      purpose and is in time, it exists with the wanted kind and its job's links are on. "Gone" is
      said exactly to a grant that is over, and "disabled" where only the links are off. */
  lemma ServedIff(mac: Tokens.Mac, assets: map<AssetId, Asset>, links: map<JobId, bool>,
                  tok: Bytes, purpose: Bytes, wantKind: Kind, now: int, id: AssetId)
    ensures var r := Resolve(mac, assets, links, tok, purpose, wantKind, now);
      r.Served? && r.id == id <==>
        && (exists exp :: Grants(mac, tok, purpose, id, exp) && now <= exp * Tokens.NANOS)
        && id in assets && assets[id].kind == wantKind
        && assets[id].job in links && !links[assets[id].job]
    ensures var r := Resolve(mac, assets, links, tok, purpose, wantKind, now);
      r == Gone <==> exists s, exp :: Grants(mac, tok, purpose, s, exp) && now > exp * Tokens.NANOS
    ensures var r := Resolve(mac, assets, links, tok, purpose, wantKind, now);
      (exists exp :: Grants(mac, tok, purpose, id, exp) && now <= exp * Tokens.NANOS) ==>
        (r == Disabled <==> id in assets && assets[id].kind == wantKind
                            && assets[id].job in links && links[assets[id].job])
  {
    hide Tokens.Verify, Grants, Blank;
    GrantIff(mac, purpose, tok, now, id);
    forall s, exp | Grants(mac, tok, purpose, s, exp) ensures !Blank(tok) {
      GrantIsNotBlank(mac, tok, purpose, s, exp);
    }
  }
}
