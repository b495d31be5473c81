/** Parties: the author and the maintainer of a package (get_parties and the
    author rule of SetupCfgHandler.parse in src/_packagedcode/pypi.py).
 */
module Parties {
  import opened Basics
  import opened Attributes

  const PartyPerson: string := "person"

  /** models.Party, reduced to the fields this code sets. */
  datatype Party = Party(partyType: string, name: Value, role: string, email: Value)

  /** A person party is emitted for a role when its name or its email is truthy. */
  predicate HasParty(m: MetaInfo, nameField: string, emailField: string) {
    Truthy(GetAttribute(m, nameField, false)) || Truthy(GetAttribute(m, emailField, false))
  }

  /** The party for a role, with a false name or email stored as None. */
  function PartyOf(m: MetaInfo, nameField: string, role: string, emailField: string): Party {
    Party(PartyPerson, OrNone(GetAttribute(m, nameField, false)), role,
          OrNone(GetAttribute(m, emailField, false)))
  }

  /** get_parties(metainfo): the author party, then the maintainer party, each
      present exactly when its name or email is set; every party is a person
      whose name and email are either truthy or None. */
  method GetParties(m: MetaInfo) returns (parties: seq<Party>)
    ensures |parties| <= 2
    ensures |parties| == (if HasParty(m, "Author", "Author-email") then 1 else 0)
                       + (if HasParty(m, "Maintainer", "Maintainer-email") then 1 else 0)
    ensures HasParty(m, "Author", "Author-email") ==>
      parties[0] == PartyOf(m, "Author", "author", "Author-email")
    ensures HasParty(m, "Maintainer", "Maintainer-email") ==>
      parties[|parties| - 1] == PartyOf(m, "Maintainer", "maintainer", "Maintainer-email")
    ensures forall i :: 0 <= i < |parties| ==>
      parties[i].partyType == PartyPerson
      && (Truthy(parties[i].name) || Truthy(parties[i].email))
      && (Truthy(parties[i].name) || parties[i].name == Null)
      && (Truthy(parties[i].email) || parties[i].email == Null)
  {
    parties := [];
    var author := GetAttribute(m, "Author", false);
    var authorEmail := GetAttribute(m, "Author-email", false);
    if Truthy(author) || Truthy(authorEmail) {
      parties := parties + [Party(PartyPerson, OrNone(author), "author", OrNone(authorEmail))];
    }
    var maintainer := GetAttribute(m, "Maintainer", false);
    var maintainerEmail := GetAttribute(m, "Maintainer-email", false);
    if Truthy(maintainer) || Truthy(maintainerEmail) {
      parties := parties + [Party(PartyPerson, OrNone(maintainer), "maintainer", OrNone(maintainerEmail))];
    }
  }

  /** The party list of a setup.cfg metadata section, given its options: one
      author party when the "author" option is set, with the "author_email"
      option as its email.  An option whose content is empty is skipped when the
      section is read, so an absent or empty "author_email" gives None.  A
      maintainer is never reported. */
  function CfgParties(metadata: map<string, string>): (parties: seq<Party>)
    ensures |parties| <= 1
    ensures parties != [] <==> "author" in metadata && metadata["author"] != []
    ensures parties != [] ==>
      Truthy(parties[0].name) && (Truthy(parties[0].email) || parties[0].email == Null)
    ensures parties != [] ==>
      parties[0].partyType == PartyPerson && parties[0].role == "author"
      && parties[0].name == Str(metadata["author"])
      && parties[0].email
         == (if "author_email" in metadata && metadata["author_email"] != [] then Str(metadata["author_email"]) else Null)
  {
    if "author" in metadata && metadata["author"] != [] then
      [Party(PartyPerson, Str(metadata["author"]), "author",
             if "author_email" in metadata && metadata["author_email"] != [] then Str(metadata["author_email"]) else Null)]
    else []
  }

  /** An email without an author gives no party in setup.cfg, unlike in
      get_parties, where the email alone is enough. */
  lemma EmailAloneDiffers(email: string)
    requires email != []
    ensures CfgParties(map["author_email" := email]) == []
    ensures HasParty(MetaInfo(map[], Some(map["Author-email" := Str(email)]), None), "Author", "Author-email")
  {
    var m := MetaInfo(map[], Some(map["Author-email" := Str(email)]), None);
    ShapeInvariance("Author-email", Str(email), false);
  }
}
