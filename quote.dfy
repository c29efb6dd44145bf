/**
 * The quote repository: a fixed, non-empty list of quotes and a random pick
 * from it. The random index is the `draw` argument of Get.
 */
module Quote {
  import opened Wrappers
  import opened Domain

  datatype Quotes = Quotes(data: seq<Quote>)

  /** A Go panic, with its message. */
  datatype Panic = Panic(message: string)

  const EmptyQuotesMessage := "quotes must not be empty"

  /** What New establishes and Get relies on: the list is not empty. */
  predicate Valid(q: Quotes) {
    |q.data| > 0
  }

  /** New panics on an empty list and otherwise keeps the list as given. */
  function New(quotes: seq<Quote>): (r: Result<Quotes, Panic>)
    ensures r.Ok? <==> |quotes| > 0
    ensures r.Ok? ==> r.value.data == quotes && Valid(r.value)
    ensures r.Err? ==> r.error == Panic(EmptyQuotesMessage)
  {
    if |quotes| == 0 then Err(Panic(EmptyQuotesMessage)) else Ok(Quotes(quotes))
  }

  /** Get returns the stored quote at the drawn index, which rand.Intn(len(data))
      keeps in [0, len(data)). */
  function Get(q: Quotes, draw: int): (quote: Quote)
    requires Valid(q) && 0 <= draw < |q.data|
    ensures quote in q.data
    ensures quote == q.data[draw]
  {
    q.data[draw]
  }

  /** Every stored quote is returned for some draw. */
  lemma GetReachesEveryQuote(q: Quotes, quote: Quote)
    requires Valid(q) && quote in q.data
    ensures exists draw :: 0 <= draw < |q.data| && Get(q, draw) == quote
  {
    var draw :| 0 <= draw < |q.data| && q.data[draw] == quote;
    assert Get(q, draw) == quote;
  }

  /** A repository built from a non-empty list hands out only quotes of that list. */
  lemma NewThenGet(quotes: seq<Quote>, draw: int)
    requires 0 <= draw < |quotes|
    ensures New(quotes).Ok?
    ensures Get(New(quotes).value, draw) in quotes
  {
  }
}
