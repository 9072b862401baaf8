/**
 * The review service: `getReviews` hands the repository's answer through,
 * and `summarizeReviews` builds the placeholder summary text from the ten
 * newest reviews of a product. Neither writes anything: both are functions
 * that only read the repository.
 */
module ReviewService {
  import opened Wrappers
  import RR = ReviewRepository

  /** The separator placed between review contents. */
  const Separator: string := "\n\n"

  /** How many reviews a summary is built from at most. */
  const SummaryReviewCount: nat := 10

  /** `parts.join(sep)`: the parts in order with `sep` between neighbours. */
  function Join(parts: seq<string>, sep: string): (r: string)
  {
    if |parts| == 0 then ""
    else if |parts| == 1 then parts[0]
    else parts[0] + sep + Join(parts[1..], sep)
  }

  /** An independent definition of joining that grows the text from the left, one part at a time. */
  function JoinFromLeft(parts: seq<string>, sep: string): (r: string)
    decreases |parts|
  {
    if |parts| == 0 then ""
    else if |parts| == 1 then parts[0]
    else JoinFromLeft(parts[..|parts| - 1], sep) + sep + parts[|parts| - 1]
  }

  /** The total length of `parts`. */
  function TotalLength(parts: seq<string>): nat
  {
    if parts == [] then 0 else |parts[0]| + TotalLength(parts[1..])
  }

  /** Appending a part to a non-empty list appends the separator and that part to the text. */
  lemma {:induction false} JoinSnoc(parts: seq<string>, sep: string, last: string)
    requires |parts| >= 1
    ensures Join(parts + [last], sep) == Join(parts, sep) + sep + last
    decreases |parts|
  {
    if |parts| == 1 {
      assert parts + [last] == [parts[0], last];
      assert (parts + [last])[1..] == [last];
    } else {
      assert (parts + [last])[0] == parts[0];
      assert (parts + [last])[1..] == parts[1..] + [last];
      JoinSnoc(parts[1..], sep, last);
    }
  }

  /** Both definitions of joining give the same text. */
  lemma {:induction false} JoinAgreesWithLeftJoin(parts: seq<string>, sep: string)
    ensures Join(parts, sep) == JoinFromLeft(parts, sep)
    decreases |parts|
  {
    if |parts| >= 2 {
      var init := parts[..|parts| - 1];
      JoinAgreesWithLeftJoin(init, sep);
      JoinSnoc(init, sep, parts[|parts| - 1]);
      assert init + [parts[|parts| - 1]] == parts;
    }
  }

  /** The joined text is as long as the parts together plus one separator between each two neighbours. */
  lemma {:induction false} JoinLength(parts: seq<string>, sep: string)
    ensures |parts| >= 1 ==> |Join(parts, sep)| == TotalLength(parts) + (|parts| - 1) * |sep|
    ensures |parts| == 0 ==> Join(parts, sep) == ""
    decreases |parts|
  {
    if |parts| >= 2 {
      JoinLength(parts[1..], sep);
      assert TotalLength(parts[1..][1..]) == TotalLength(parts[2..]);
    } else if |parts| == 1 {
      assert parts[1..] == [];
    }
  }

  /** The decimal digits of a natural number, most significant first, without leading zeros. */
  function NatToDecimal(n: nat): (r: string)
    ensures |r| >= 1
    ensures forall i :: 0 <= i < |r| ==> '0' <= r[i] <= '9'
    ensures |r| > 1 ==> r[0] != '0'
    decreases n
  {
    if n < 10 then [DigitChar(n)] else NatToDecimal(n / 10) + [DigitChar(n % 10)]
  }

  function DigitChar(d: nat): (c: char)
    requires d < 10
    ensures '0' <= c <= '9' && c as int - '0' as int == d
  {
    ('0' as int + d) as char
  }

  /** The value of a string of decimal digits. */
  function DecimalValue(s: string): nat
    requires forall i :: 0 <= i < |s| ==> '0' <= s[i] <= '9'
  {
    if s == [] then 0 else 10 * DecimalValue(s[..|s| - 1]) + (s[|s| - 1] as int - '0' as int)
  }

  /** The template's `${productId}` for an integer product id: a minus sign for negatives, then the digits. */
  function IntToDecimal(n: int): (r: string)
    ensures |r| >= 1
    ensures r[0] == '-' <==> n < 0
    ensures n < 0 ==> |r| >= 2 && forall i :: 1 <= i < |r| ==> '0' <= r[i] <= '9'
    ensures n >= 0 ==> forall i :: 0 <= i < |r| ==> '0' <= r[i] <= '9'
  {
    if n < 0 then "-" + NatToDecimal(-n) else NatToDecimal(n)
  }

  /** A decimal integer: an optional minus sign followed by at least one digit. */
  predicate IsDecimalInt(s: string)
  {
    |s| >= 1 &&
    if s[0] == '-' then |s| >= 2 && forall i :: 1 <= i < |s| ==> '0' <= s[i] <= '9'
    else forall i :: 0 <= i < |s| ==> '0' <= s[i] <= '9'
  }

  /** The value of a decimal integer. */
  function DecimalIntValue(s: string): int
    requires IsDecimalInt(s)
  {
    if s[0] == '-' then 0 - DecimalValue(s[1..]) as int else DecimalValue(s)
  }

  /** Reading the digits back gives the number: the decimal rendering loses nothing. */
  lemma {:induction false} DecimalRoundTrip(n: nat)
    ensures DecimalValue(NatToDecimal(n)) == n
    decreases n
  {
    if n >= 10 {
      DecimalRoundTrip(n / 10);
      var s := NatToDecimal(n);
      assert s[..|s| - 1] == NatToDecimal(n / 10);
    }
  }

  /** Reading back the rendering of any product id, negative ones included, gives that id. */
  lemma IntDecimalRoundTrip(n: int)
    ensures IsDecimalInt(IntToDecimal(n))
    ensures DecimalIntValue(IntToDecimal(n)) == n
  {
    if n < 0 {
      assert IntToDecimal(n)[1..] == NatToDecimal(-n);
      DecimalRoundTrip(-n);
    } else {
      DecimalRoundTrip(n);
    }
  }

  /** The fixed text in front of the review contents. */
  function Header(productId: int): (h: string)
    ensures |h| >= 1 && h[|h| - 1] == '\n'
  {
    "Summary for product " + IntToDecimal(productId) + ": This is a placeholder summary based on the following reviews:\n"
  }

  /** The contents of the reviews, in the same order. */
  function Contents(reviews: seq<RR.Review>): (r: seq<string>)
    ensures |r| == |reviews|
    ensures forall i :: 0 <= i < |r| ==> r[i] == reviews[i].content
  {
    seq(|reviews|, i requires 0 <= i < |reviews| => reviews[i].content)
  }

  /** The summary text for the given reviews: the header, then their contents separated by a blank line. */
  function SummaryText(productId: int, reviews: seq<RR.Review>): (r: string)
    ensures |r| >= |Header(productId)| && r[..|Header(productId)|] == Header(productId)
    ensures r[|Header(productId)|..] == Join(Contents(reviews), Separator)
  {
    Header(productId) + Join(Contents(reviews), Separator)
  }

  /** With no reviews, the summary is the header alone and ends with its newline. */
  lemma SummaryOfNoReviews(productId: int)
    ensures SummaryText(productId, []) == Header(productId)
    ensures SummaryText(productId, [])[|SummaryText(productId, [])| - 1] == '\n'
  {
  }

  /** `getReviews(productId)`: every review of the product, newest first, with no limit. */
  function GetReviews(repo: RR.Repository, productId: int): (r: seq<RR.Review>)
    reads repo
    ensures RR.NewestFirst(r)
    ensures multiset(r) == multiset(RR.OfProduct(repo.reviews, productId))
  {
    repo.GetReviews(productId, None)
  }

  /** `summarizeReviews(productId)`: the summary text of the product's ten newest reviews. */
  function SummarizeReviews(repo: RR.Repository, productId: int): (r: string)
    reads repo
    ensures var matching := RR.OfProduct(repo.reviews, productId);
      exists used: seq<RR.Review> ::
        |used| == (if |matching| < SummaryReviewCount then |matching| else SummaryReviewCount) &&
        used <= RR.SortNewestFirst(matching) &&
        r == SummaryText(productId, used)
  {
    var used := repo.GetReviews(productId, Some(SummaryReviewCount));
    SummaryText(productId, used)
  }
}
