/**
 Splitting a comma-separated list of column names in which names may be quoted. The code
 splits at the commas that are followed by an even number of quote characters; a reader
 expects the commas outside quotes. The two agree exactly when the quotes are balanced.
 */
module ColumnLists {

  function QuoteCount(s: string, quote: char): nat {
    if s == "" then 0 else (if s[0] == quote then 1 else 0) + QuoteCount(s[1..], quote)
  }

  /** The look-ahead: what follows holds an even number of quotes. */
  predicate BalancedAhead(s: string, quote: char) { QuoteCount(s, quote) % 2 == 0 }

  /** Prepends a character to the first part of a split. */
  function Extend(c: char, parts: seq<string>): (r: seq<string>)
    requires parts != []
    ensures |r| == |parts|
  {
    [[c] + parts[0]] + parts[1..]
  }

  /** The regular-expression split: a comma separates if the rest of the text is balanced. */
  function LookaheadSplit(s: string, quote: char): (parts: seq<string>)
    ensures parts != []
  {
    if s == "" then [""]
    else if s[0] == ',' && BalancedAhead(s[1..], quote) then [""] + LookaheadSplit(s[1..], quote)
    else Extend(s[0], LookaheadSplit(s[1..], quote))
  }

  /** A left-to-right scanner that tracks whether it is inside quotes. */
  function ScannerSplit(s: string, quote: char, inside: bool): (parts: seq<string>)
    ensures parts != []
  {
    if s == "" then [""]
    else if s[0] == quote then Extend(s[0], ScannerSplit(s[1..], quote, !inside))
    else if s[0] == ',' && !inside then [""] + ScannerSplit(s[1..], quote, inside)
    else Extend(s[0], ScannerSplit(s[1..], quote, inside))
  }

  /** The scanner that ends outside quotes splits exactly where the look-ahead does. */
  lemma {:induction false} BalancedSplitsAgree(s: string, quote: char, inside: bool)
    requires quote != ',' && (QuoteCount(s, quote) % 2 == 1) == inside
    ensures LookaheadSplit(s, quote) == ScannerSplit(s, quote, inside)
  {
    if s != "" {
      BalancedSplitsAgree(s[1..], quote, if s[0] == quote then !inside else inside);
    }
  }

  /** The scanner that ends inside quotes splits exactly at the commas the look-ahead keeps. */
  lemma {:induction false} UnbalancedSplitsDiffer(s: string, quote: char, inside: bool)
    requires quote != ',' && (QuoteCount(s, quote) % 2 == 1) == !inside
    ensures LookaheadSplit(s, quote) == ScannerSplit(s, quote, inside) <==> ',' !in s
  {
    if s != "" {
      UnbalancedSplitsDiffer(s[1..], quote, if s[0] == quote then !inside else inside);
      var a := LookaheadSplit(s[1..], quote);
      var b := ScannerSplit(s[1..], quote, if s[0] == quote then !inside else inside);
      if s[0] == ',' {
        // Exactly one of the two splits here: its first part is empty, the other's is not.
        assert s[0] in s;
        assert LookaheadSplit(s, quote)[0] == "" <==> BalancedAhead(s[1..], quote);
        assert ScannerSplit(s, quote, inside)[0] == "" <==> !inside;
      } else {
        assert LookaheadSplit(s, quote) == Extend(s[0], a) && ScannerSplit(s, quote, inside) == Extend(s[0], b);
        assert Extend(s[0], a)[0][1..] == a[0] && Extend(s[0], b)[0][1..] == b[0];
        assert Extend(s[0], a)[1..] == a[1..] && Extend(s[0], b)[1..] == b[1..];
        if Extend(s[0], a) == Extend(s[0], b) {
          assert [a[0]] + a[1..] == a && [b[0]] + b[1..] == b;
        }
        assert s == [s[0]] + s[1..];
      }
    }
  }

  /** Main result: the look-ahead split is the quote-aware split exactly on balanced or comma-free lists. */
  lemma LookaheadIsQuoteAware(s: string, quote: char)
    requires quote != ','
    ensures LookaheadSplit(s, quote) == ScannerSplit(s, quote, false) <==> BalancedAhead(s, quote) || ',' !in s
  {
    if BalancedAhead(s, quote) {
      BalancedSplitsAgree(s, quote, false);
    } else {
      UnbalancedSplitsDiffer(s, quote, false);
    }
  }
}
