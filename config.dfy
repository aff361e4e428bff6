/**
 * Application settings (`backend/app/config.py`): the limits and defaults the backend reads,
 * the derivation of the model-server URL and the CORS origin list.
 * Loading values from the environment or a `.env` file is represented by `Overrides`.
 */
module Config {
  import opened Wrappers
  import opened Text

  const DefaultLitserveServerUrl: string := "http://localhost:8000"
  const DefaultMaxAudioSizeMb: int := 50
  const DefaultMaxAudioDurationSec: int := 300
  const DefaultCorsOriginsStr: string := "http://localhost:5173" + "," + "http://localhost:3000" + "," + "http://localhost:8000"
  const PredictSuffix: string := "/predict"

  const SupportedLanguages: seq<string> := ["en", "hi", "kn", "te", "ma", "sa"]
  const SupportedGenders: seq<string> := ["male", "female"]

  /** The settings this model uses; the remaining ones (SMTP, rate limiting, host/port) are not modelled. */
  datatype Settings = Settings(
    litserveServerUrl: string,
    modelBaseUrl: string,
    maxAudioSizeMb: int,
    maxAudioDurationSec: int,
    noiseSuppressionEnabled: bool,
    corsOriginsStr: string)

  /** Values supplied as keyword arguments or through the environment; None means "use the default". */
  datatype Overrides = Overrides(
    litserveServerUrl: Option<string>,
    modelBaseUrl: Option<string>,
    maxAudioSizeMb: Option<int>,
    maxAudioDurationSec: Option<int>,
    noiseSuppressionEnabled: Option<bool>,
    corsOriginsStr: Option<string>)

  const NoOverrides: Overrides := Overrides(None, None, None, None, None, None)

  /** The MODEL_BASE_URL after construction: an explicit non-empty value, else the server URL plus "/predict". */
  function DeriveModelBaseUrl(litserveServerUrl: string, modelBaseUrl: string): (url: string)
    ensures modelBaseUrl != "" ==> url == modelBaseUrl
    ensures modelBaseUrl == "" ==> EndsWith(url, PredictSuffix)
  {
    if modelBaseUrl != "" then modelBaseUrl else RStripChar(litserveServerUrl, '/') + PredictSuffix
  }

  /**
   * A derived URL is the server URL with every trailing '/' removed, followed by "/predict":
   * the part before "/predict" is a prefix of the server URL, only slashes were dropped, and it
   * does not itself end in '/', so no "//predict" is formed at the junction.
   */
  lemma DerivedModelBaseUrl(litserveServerUrl: string)
    ensures var url := DeriveModelBaseUrl(litserveServerUrl, "");
      var base := url[..|url| - |PredictSuffix|];
      EndsWith(url, PredictSuffix) &&
      StartsWith(litserveServerUrl, base) &&
      (forall i :: |base| <= i < |litserveServerUrl| ==> litserveServerUrl[i] == '/') &&
      (base == [] || base[|base| - 1] != '/')
  {
    var base := RStripChar(litserveServerUrl, '/');
    var url := base + PredictSuffix;
    assert url[..|url| - |PredictSuffix|] == base;
  }

  /** Construction: every field is its override or its default, then MODEL_BASE_URL is derived. */
  function Init(o: Overrides): (s: Settings)
    ensures s.litserveServerUrl == o.litserveServerUrl.GetOr(DefaultLitserveServerUrl)
    ensures o.modelBaseUrl.Some? && o.modelBaseUrl.value != "" ==> s.modelBaseUrl == o.modelBaseUrl.value
    ensures (o.modelBaseUrl.None? || o.modelBaseUrl.value == "") ==>
      s.modelBaseUrl == RStripChar(s.litserveServerUrl, '/') + PredictSuffix
    ensures s.maxAudioSizeMb == o.maxAudioSizeMb.GetOr(DefaultMaxAudioSizeMb)
    ensures s.maxAudioDurationSec == o.maxAudioDurationSec.GetOr(DefaultMaxAudioDurationSec)
    ensures s.noiseSuppressionEnabled == o.noiseSuppressionEnabled.GetOr(true)
    ensures s.corsOriginsStr == o.corsOriginsStr.GetOr(DefaultCorsOriginsStr)
  {
    var litserve := o.litserveServerUrl.GetOr(DefaultLitserveServerUrl);
    Settings(
      litserve,
      DeriveModelBaseUrl(litserve, o.modelBaseUrl.GetOr("")),
      o.maxAudioSizeMb.GetOr(DefaultMaxAudioSizeMb),
      o.maxAudioDurationSec.GetOr(DefaultMaxAudioDurationSec),
      o.noiseSuppressionEnabled.GetOr(true),
      o.corsOriginsStr.GetOr(DefaultCorsOriginsStr))
  }

  /** Every piece stripped of surrounding whitespace, in order. */
  function StripAll(pieces: seq<string>): (qs: seq<string>)
    ensures |qs| == |pieces|
    ensures forall i :: 0 <= i < |qs| ==> qs[i] == Strip(Python, pieces[i])
  {
    seq(|pieces|, i requires 0 <= i < |pieces| => Strip(Python, pieces[i]))
  }

  /** The non-empty strings, in their original order. */
  function NonEmpty(qs: seq<string>): (kept: seq<string>)
    ensures |kept| <= |qs|
    ensures forall i :: 0 <= i < |kept| ==> kept[i] != []
  {
    if qs == [] then []
    else if qs[0] != [] then [qs[0]] + NonEmpty(qs[1..])
    else NonEmpty(qs[1..])
  }

  /** Exactly the non-empty strings are kept. */
  lemma {:induction false} NonEmptyMembers(qs: seq<string>, x: string)
    ensures x in NonEmpty(qs) <==> x != [] && x in qs
  {
    if qs != [] {
      NonEmptyMembers(qs[1..], x);
      assert qs == [qs[0]] + qs[1..];
    }
  }

  /** A list with no empty strings is kept whole. */
  lemma {:induction false} NonEmptyOfNonEmpty(qs: seq<string>)
    requires forall i :: 0 <= i < |qs| ==> qs[i] != []
    ensures NonEmpty(qs) == qs
  {
    if qs != [] {
      NonEmptyOfNonEmpty(qs[1..]);
    }
  }

  /** Keeping the non-empty strings distributes over concatenation: the kept ones stay in order. */
  lemma {:induction false} NonEmptyAppend(xs: seq<string>, ys: seq<string>)
    ensures NonEmpty(xs + ys) == NonEmpty(xs) + NonEmpty(ys)
  {
    if xs == [] {
      assert xs + ys == ys;
    } else {
      assert (xs + ys)[1..] == xs[1..] + ys;
      NonEmptyAppend(xs[1..], ys);
    }
  }

  /** One string is kept exactly when it is non-empty. */
  lemma NonEmptySingleton(q: string)
    ensures NonEmpty([q]) == if q == [] then [] else [q]
  {
    assert [q][1..] == [];
  }

  /** Stripping piece by piece distributes over concatenation. */
  lemma StripAllAppend(xs: seq<string>, ys: seq<string>)
    ensures StripAll(xs + ys) == StripAll(xs) + StripAll(ys)
  {
  }

  /** The CORS_ORIGINS property. */
  function CorsOrigins(s: Settings): (origins: seq<string>)
    ensures |origins| <= Count(s.corsOriginsStr, ',') + 1
    ensures forall i :: 0 <= i < |origins| ==> origins[i] != [] && NoEdgeSpace(Python, origins[i]) && ',' !in origins[i]
  {
    var pieces := SplitOn(s.corsOriginsStr, ',');
    var qs := StripAll(pieces);
    var origins := NonEmpty(qs);
    CleanOrigins(pieces, qs, origins);
    assert |origins| <= |qs| == |pieces|;
    origins
  }

  lemma CleanOrigins(pieces: seq<string>, qs: seq<string>, origins: seq<string>)
    requires forall i :: 0 <= i < |pieces| ==> ',' !in pieces[i]
    requires qs == StripAll(pieces) && origins == NonEmpty(qs)
    ensures forall i :: 0 <= i < |origins| ==> NoEdgeSpace(Python, origins[i]) && ',' !in origins[i]
  {
    forall i | 0 <= i < |origins| ensures NoEdgeSpace(Python, origins[i]) && ',' !in origins[i] {
      NonEmptyMembers(qs, origins[i]);
      var j :| 0 <= j < |qs| && qs[j] == origins[i];
      StripIsInfix(Python, pieces[j]);
    }
  }

  /** `x` is what stripping one of the pieces gives. */
  predicate StrippedPiece(pieces: seq<string>, x: string) {
    exists i :: 0 <= i < |pieces| && Strip(Python, pieces[i]) == x
  }

  /** The stripped pieces are exactly the strips of the pieces. */
  lemma InStripAll(pieces: seq<string>, x: string)
    ensures x in StripAll(pieces) <==> StrippedPiece(pieces, x)
  {
    var qs := StripAll(pieces);
    if x in qs {
      var i :| 0 <= i < |qs| && qs[i] == x;
      assert Strip(Python, pieces[i]) == x;
    }
    if StrippedPiece(pieces, x) {
      var i :| 0 <= i < |pieces| && Strip(Python, pieces[i]) == x;
      assert qs[i] == x;
    }
  }

  /**
   * An origin is listed exactly when it is the non-empty result of stripping one of the
   * comma-separated pieces.
   */
  lemma CorsOriginsMembers(s: Settings, x: string)
    ensures x in CorsOrigins(s) <==> x != [] && StrippedPiece(SplitOn(s.corsOriginsStr, ','), x)
  {
    var pieces := SplitOn(s.corsOriginsStr, ',');
    var qs := StripAll(pieces);
    assert CorsOrigins(s) == NonEmpty(qs);
    NonEmptyMembers(qs, x);
    InStripAll(pieces, x);
  }

  /** Origins already stripped and non-empty survive unchanged. */
  lemma StripAllOfClean(pieces: seq<string>)
    requires forall i :: 0 <= i < |pieces| ==> pieces[i] != [] && NoEdgeSpace(Python, pieces[i])
    ensures NonEmpty(StripAll(pieces)) == pieces
  {
    forall i | 0 <= i < |pieces| ensures Strip(Python, pieces[i]) == pieces[i] {
      TrimStartOfNoEdge(Python, pieces[i]);
    }
    assert StripAll(pieces) == pieces;
    NonEmptyOfNonEmpty(pieces);
  }

  /**
   * Writing the origin list back as a comma-separated string and reading it again gives the
   * same list: the origin list is a fixed point of the property.
   */
  lemma CorsOriginsIdempotent(s: Settings)
    ensures var origins := CorsOrigins(s);
      origins != [] ==> CorsOrigins(s.(corsOriginsStr := Join([','], origins))) == origins
  {
    var origins := CorsOrigins(s);
    if origins != [] {
      SplitOnJoin(origins, ',');
      StripAllOfClean(origins);
    }
  }

  /** With no overrides the model URL is the local LitServe predict endpoint. */
  lemma DefaultModelBaseUrl()
    ensures Init(NoOverrides).modelBaseUrl == "http://localhost:8000/predict"
  {
    assert RStripChar(DefaultLitserveServerUrl, '/') == DefaultLitserveServerUrl;
  }

  /** A trailing slash on the server URL is dropped before "/predict" is appended. */
  lemma TrailingSlashModelBaseUrl()
    ensures DeriveModelBaseUrl("http://localhost:8000/", "") == "http://localhost:8000/predict"
  {
    assert RStripChar("http://localhost:8000/", '/') == RStripChar("http://localhost:8000", '/');
    assert RStripChar("http://localhost:8000", '/') == "http://localhost:8000";
  }

  /** The default origins are the three local development servers, in the order written. */
  lemma DefaultCorsOrigins()
    ensures CorsOrigins(Init(NoOverrides)) ==
      ["http://localhost:5173", "http://localhost:3000", "http://localhost:8000"]
  {
    var origins := ["http://localhost:5173", "http://localhost:3000", "http://localhost:8000"];
    assert origins[1..] == ["http://localhost:3000", "http://localhost:8000"];
    assert origins[1..][1..] == ["http://localhost:8000"];
    assert Join([','], origins) == DefaultCorsOriginsStr;
    forall i | 0 <= i < |origins| ensures ',' !in origins[i] && origins[i] != [] && NoEdgeSpace(Python, origins[i]) {
    }
    SplitOnJoin(origins, ',');
    StripAllOfClean(origins);
  }

  /** "b, ,a" splits into "b", " " and "a". */
  lemma BlankOriginPieces()
    ensures SplitOn("b, ,a", ',') == ["b", " ", "a"]
  {
    var pieces := ["b", " ", "a"];
    assert pieces[1..] == [" ", "a"];
    assert pieces[1..][1..] == ["a"];
    assert Join([','], pieces) == "b, ,a";
    SplitOnJoin(pieces, ',');
  }

  /** Stripping the pieces of "b, ,a" empties the blank one and keeps the others. */
  lemma BlankOriginStrips()
    ensures StripAll(["b", " ", "a"]) == ["b", "", "a"]
  {
    assert Strip(Python, " ") == "";
    assert Strip(Python, "b") == "b";
    assert Strip(Python, "a") == "a";
  }

  /** Only the empty piece is dropped, and the order stays. */
  lemma BlankOriginKept()
    ensures NonEmpty(["b", "", "a"]) == ["b", "a"]
  {
    NonEmptyAppend(["b"], ["", "a"]);
    NonEmptyAppend([""], ["a"]);
    NonEmptySingleton("b");
    NonEmptySingleton("");
    NonEmptySingleton("a");
    assert ["b"] + ["", "a"] == ["b", "", "a"];
    assert [""] + ["a"] == ["", "a"];
  }

  /** A blank piece between two origins is dropped and the others keep their order. */
  lemma BlankOriginDropped(s: Settings)
    requires s.corsOriginsStr == "b, ,a"
    ensures CorsOrigins(s) == ["b", "a"]
  {
    assert CorsOrigins(s) == NonEmpty(StripAll(SplitOn(s.corsOriginsStr, ',')));
    BlankOriginPieces();
    BlankOriginStrips();
    BlankOriginKept();
  }
}
