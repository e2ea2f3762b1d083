/**
 * `com.ll.database.QueryBuilder`: a `StringBuilder` that collects SQL
 * fragments, each followed by one space, and hands out the trimmed text.
 */
module DatabaseQueryBuilder {
  import opened JavaText

  /** The joined text begins with the first fragment. */
  lemma {:induction false} JoinedStartsWithFirst(fragments: seq<string>)
    requires fragments != []
    ensures StartsWith(Joined(fragments), fragments[0])
  {
    if |fragments| > 1 {
      var init := fragments[..|fragments| - 1];
      JoinedStartsWithFirst(init);
      assert Joined(fragments)[..|init[0]|] == Joined(init)[..|init[0]|];
    }
  }

  /** The joined text holds every `?` of every fragment, and no other. */
  lemma {:induction false} JoinedCount(fragments: seq<string>, counts: seq<nat>, c: char)
    requires c != ' ' && |counts| == |fragments|
    requires forall i :: 0 <= i < |fragments| ==> Count(fragments[i], c) == counts[i]
    ensures Count(Joined(fragments), c) == Sum(counts)
  {
    if fragments != [] {
      var n := |fragments|;
      JoinedCount(fragments[..n - 1], counts[..n - 1], c);
      CountConcat(Joined(fragments[..n - 1]) + fragments[n - 1], " ", c);
      CountConcat(Joined(fragments[..n - 1]), fragments[n - 1], c);
      assert Count(" ", c) == 0;
    }
  }

  function Sum(xs: seq<nat>): nat
  {
    if xs == [] then 0 else Sum(xs[..|xs| - 1]) + xs[|xs| - 1]
  }

  class QueryBuilder {
    var buffer: string
    ghost var fragments: seq<string>

    ghost predicate Valid()
      reads this
    {
      buffer == Joined(fragments)
    }

    constructor ()
      ensures Valid() && fragments == [] && buffer == []
    {
      buffer := [];
      fragments := [];
    }

    /** `append(query)`: the buffer grows by the fragment and one space; the builder itself is returned. */
    method Append(query: string) returns (self: QueryBuilder)
      requires Valid()
      modifies this
      ensures Valid() && self == this
      ensures buffer == old(buffer) + query + " "
      ensures fragments == old(fragments) + [query]
    {
      buffer := buffer + query + " ";
      fragments := fragments + [query];
      assert fragments[..|fragments| - 1] == old(fragments);
      self := this;
    }

    /** `build()`: the trimmed text of every fragment appended so far; the buffer is left as it is. */
    method Build() returns (built: string)
      requires Valid()
      ensures built == Trim(Joined(fragments))
      ensures built == [] || (!IsSpace(built[0]) && !IsSpace(built[|built| - 1]))
    {
      built := Trim(buffer);
    }
  }
}
