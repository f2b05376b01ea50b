/** Drink recommendations: the language model's free-text reply becomes a
    list of at most 20 catalog drinks, and the screen's loading, error and
    result fields follow the outcome. */
module Recommendation {
  import opened Wrappers
  import opened Lists
  import opened Text
  import Catalog

  const MaxRecommendations := 20
  const NoValidDrinks := "No valid drinks found in LLM response"
  const FailurePrefix := "Failed to get recommendations: "

  predicate NotBlank(s: string) {
    !IsBlank(s)
  }

  /** `any { it.equals(name, ignoreCase = true) }` over the product names. */
  predicate InCatalog(products: seq<string>, name: string) {
    exists k :: 0 <= k < |products| && EqualsIgnoreCase(products[k], name)
  }

  function MatchesCatalog(products: seq<string>): string -> bool {
    (name: string) => InCatalog(products, name)
  }

  /** The reply cut into lines, each trimmed. */
  function TrimmedLines(content: string): (r: seq<string>)
    ensures forall x :: x in r ==> Trim(x) == x
  {
    var pieces := Split(Trim(content), '\n');
    var r := MapSeq(pieces, Trim);
    forall x | x in r ensures Trim(x) == x {
      var i :| 0 <= i < |r| && r[i] == x;
      TrimIdempotent(pieces[i]);
    }
    r
  }

  /** The non-blank trimmed lines, in reply order. */
  function ReplyLines(content: string): (r: seq<string>)
    ensures forall x :: x in r ==> x != [] && Trim(x) == x && x in TrimmedLines(content)
    ensures forall x :: x in TrimmedLines(content) && x != [] ==> x in r
  {
    Filter(TrimmedLines(content), NotBlank)
  }

  /** The lines naming a catalog drink, ignoring case. */
  function ValidDrinks(content: string, products: seq<string>): (r: seq<string>)
    ensures forall x :: x in r ==> x in ReplyLines(content) && InCatalog(products, x)
    ensures forall x :: x in r ==> x != [] && Trim(x) == x && x in TrimmedLines(content)
    ensures forall x :: x in ReplyLines(content) && InCatalog(products, x) ==> x in r
  {
    Filter(ReplyLines(content), MatchesCatalog(products))
  }

  /** The post-processing of a reply: the lines that name a catalog drink,
      spelled as in the reply, capped at 20, or an error when none does. */
  function ParseReply(content: string, products: seq<string>): (r: Result<seq<string>>)
    ensures r.Failure? <==> ValidDrinks(content, products) == []
    ensures r.Failure? ==> r.message == NoValidDrinks
    ensures r.Success? ==> var valid := ValidDrinks(content, products);
      && 1 <= |r.value| <= MaxRecommendations
      && r.value <= valid
      && |r.value| == (if |valid| > MaxRecommendations then MaxRecommendations else |valid|)
    ensures r.Success? ==> forall x :: x in r.value ==>
      && x != [] && Trim(x) == x && x in TrimmedLines(content) && InCatalog(products, x)
  {
    var valid := ValidDrinks(content, products);
    var capped := if |valid| > MaxRecommendations then valid[..MaxRecommendations] else valid;
    if capped == [] then Failure(NoValidDrinks) else Success(capped)
  }

  /** A reply is rejected exactly when none of its non-empty trimmed lines
      names a catalog drink. */
  lemma ParseReplyFailsExactly(content: string, products: seq<string>)
    ensures ParseReply(content, products).Failure? <==>
      forall x :: x in TrimmedLines(content) && x != [] ==> !InCatalog(products, x)
  {
    var valid := ValidDrinks(content, products);
    if valid != [] {
      assert valid[0] in valid;
    } else {
      forall x | x in TrimmedLines(content) && x != [] ensures !InCatalog(products, x) {
        assert x in ReplyLines(content);
      }
    }
  }

  class RecommendationViewModel {
    var recommendations: seq<string>
    var isLoading: bool
    var errorMessage: string
    const availableProducts: seq<string>

    constructor ()
      ensures recommendations == [] && !isLoading && errorMessage == ""
      ensures availableProducts == Catalog.ProductNames()
    {
      recommendations := [];
      isLoading := false;
      errorMessage := "";
      availableProducts := Catalog.ProductNames();
    }

    /** `getRecommendations` once the request has finished: `reply` is the
        reply's text, or the message of the request's failure. A parsed
        reply becomes the recommendations; any failure empties them and sets
        the prefixed message; loading ends either way. */
    method GetRecommendations(reply: Result<string>)
      modifies this`recommendations, this`isLoading, this`errorMessage
      ensures !isLoading
      ensures var outcome := if reply.Success? then ParseReply(reply.value, availableProducts) else Failure(reply.message);
        && (outcome.Success? ==> recommendations == outcome.value && errorMessage == "")
        && (outcome.Failure? ==> recommendations == [] && errorMessage == FailurePrefix + outcome.message)
      ensures |recommendations| <= MaxRecommendations
    {
      var outcome := if reply.Success? then ParseReply(reply.value, availableProducts) else Failure(reply.message);
      recommendations, errorMessage, isLoading :=
        (if outcome.Success? then outcome.value else []),
        (if outcome.Success? then "" else FailurePrefix + outcome.message),
        false;
    }
  }
}
