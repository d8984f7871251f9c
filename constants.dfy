/** Module-level constants of the fetcher: endpoints, on-disk paths, credential lengths and the
    attribute allow-lists of an anime list query. */
module Constants {
  import Percent

  const MalOAuth2Base: string := "https://myanimelist.net"
  const MalOAuth2Endpoint: string := MalOAuth2Base + "/v1/oauth2"
  const MalBase: string := "https://api.myanimelist.net"
  const MalAnimeEndpoint: string := MalBase + "/v2/anime"
  const MalMangaEndpoint: string := MalBase + "/v2/manga"

  const MetadataPath: string := "_api/"
  const TokenPath: string := MetadataPath + "token.json"
  const KeyPath: string := MetadataPath + "key.json"

  const ClientIdLen: nat := 32
  const ClientSecretLen: nat := 64

  /** Attributes every list query asks for. */
  const DefaultAttributes: seq<string> := ["id", "title", "main_picture"]

  /** Attributes a caller may add to a list query. */
  const OptionalAttributes: seq<string> := [
    "alternative_titles", "start_date", "end_date", "synopsis", "mean", "rank",
    "popularity", "num_list_users", "num_scoring_users", "nsfw", "genres",
    "created_at", "updated_at", "media_type", "status", "num_episodes",
    "start_season", "broadcast", "source", "average_episode_duration",
    "rating", "studios"
  ]

  const AllAttributes: seq<string> := DefaultAttributes + OptionalAttributes

  predicate Distinct(s: seq<string>)
  {
    forall i, j :: 0 <= i < j < |s| ==> s[i] != s[j]
  }

  /** A character that may appear in an attribute name: lower-case letters and `_`. */
  predicate IsNameChar(c: char)
  {
    'a' <= c <= 'z' || c == '_'
  }

  predicate IsName(a: string)
  {
    forall k :: 0 <= k < |a| ==> IsNameChar(a[k])
  }

  lemma OptionalDistinct()
    ensures |OptionalAttributes| == 22 && Distinct(OptionalAttributes)
  {
  }

  lemma DefaultsNotOptional()
    ensures forall a :: a in OptionalAttributes ==> a !in DefaultAttributes
  {
  }

  /** The two allow-lists: three defaults, 22 distinct optional names, and no name in both. */
  lemma AttributeLists()
    ensures DefaultAttributes == ["id", "title", "main_picture"]
    ensures |OptionalAttributes| == 22 && Distinct(OptionalAttributes)
    ensures forall a :: a in OptionalAttributes ==> a !in DefaultAttributes
    ensures AllAttributes[..3] == DefaultAttributes && AllAttributes[3..] == OptionalAttributes
    ensures Distinct(AllAttributes)
  {
    OptionalDistinct();
    DefaultsNotOptional();
    assert AllAttributes[..3] == DefaultAttributes;
    assert AllAttributes[3..] == OptionalAttributes;
    forall i, j | 0 <= i < j < |AllAttributes| ensures AllAttributes[i] != AllAttributes[j] {
      if j >= 3 {
        assert AllAttributes[j] == OptionalAttributes[j - 3];
        assert AllAttributes[j] in OptionalAttributes;
        if i >= 3 {
          assert AllAttributes[i] == OptionalAttributes[i - 3];
        } else {
          assert AllAttributes[i] in DefaultAttributes;
        }
      }
    }
  }

  lemma DefaultNamesPlain()
    ensures forall i :: 0 <= i < |DefaultAttributes| ==> IsName(DefaultAttributes[i])
  {
  }

  lemma OptionalNamesPlainFirstHalf()
    ensures forall i :: 0 <= i < 11 ==> IsName(OptionalAttributes[i])
  {
  }

  lemma OptionalNamesPlainSecondHalf()
    ensures forall i :: 11 <= i < 22 ==> IsName(OptionalAttributes[i])
  {
  }

  /** Every allowed name is non-empty and made of lower-case letters and `_`. */
  lemma AttributeNamesPlain()
    ensures forall a :: a in AllAttributes ==> IsName(a) && |a| > 0
  {
    DefaultNamesPlain();
    OptionalNamesPlainFirstHalf();
    OptionalNamesPlainSecondHalf();
    forall a | a in AllAttributes ensures IsName(a) && |a| > 0 {
      var i :| 0 <= i < |AllAttributes| && AllAttributes[i] == a;
      if i >= 3 {
        assert a == OptionalAttributes[i - 3];
      }
    }
  }

  /** Names made of letters and `_` are left unchanged by percent-encoding and hold no `,` or `&`. */
  lemma {:induction false} NamesSurviveEncoding(a: string)
    requires IsName(a)
    ensures Percent.Quote(a) == a
    ensures ',' !in a && '&' !in a && '=' !in a
  {
    forall k | 0 <= k < |a| ensures Percent.IsSafe(a[k]) {
    }
    Percent.QuoteSafeUnchanged(a);
  }

  /** The credential lengths and the two on-disk paths. */
  lemma CredentialsAndPaths()
    ensures ClientIdLen == 32 && ClientSecretLen == 64
    ensures TokenPath == "_api/token.json" && KeyPath == "_api/key.json"
    ensures TokenPath != KeyPath
    ensures MalOAuth2Endpoint == "https://myanimelist.net/v1/oauth2"
    ensures MalAnimeEndpoint == "https://api.myanimelist.net/v2/anime"
  {
  }
}
