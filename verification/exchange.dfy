/** The two plain-text exchange files shared with the external solver:
    `in.txt`, written by the harness, and `out.txt`, read back from it.
    Numbers become text through an abstract formatter and come back through
    an abstract parser, standing for Python's float formatting and `float`. */
module Exchange {
  import opened Failures
  import opened Tokens

  /** Every number is written as one whitespace-free, non-empty token. */
  ghost predicate TokenFormatter(fmt: real -> string)
  {
    forall v :: IsToken(fmt(v))
  }

  /** Parsing the text of each of `values` gives that value back. Only the
      values actually written are asked to survive the trip. */
  ghost predicate RoundTrips(parse: string -> Option<real>, fmt: real -> string, values: seq<real>)
  {
    forall k :: 0 <= k < |values| ==> parse(fmt(values[k])) == Some(values[k])
  }

  lemma FormatterToken(fmt: real -> string, v: real)
    requires TokenFormatter(fmt)
    ensures IsToken(fmt(v))
  {
  }

  /** The text of each value, in order. */
  function Formatted(values: seq<real>, fmt: real -> string): (tokens: seq<string>)
    ensures |tokens| == |values|
  {
    seq(|values|, k requires 0 <= k < |values| => fmt(values[k]))
  }

  /** `f"{X[i][j]} "` for every column `j` of a row, in column order. */
  function FeatureFields(row: seq<real>, fmt: real -> string): string
  {
    if |row| == 0 then "" else fmt(row[0]) + " " + FeatureFields(row[1..], fmt)
  }

  /** One line of `in.txt`: the feature fields, then `f" {y[i]}\n"`, so the
      last feature and the target are separated by two spaces. */
  function InLine(row: seq<real>, target: real, fmt: real -> string): string
  {
    FeatureFields(row, fmt) + " " + fmt(target) + "\n"
  }

  /** The whole of `in.txt`: one line per training sample, in sample order. */
  function InFile(X: seq<seq<real>>, y: seq<real>, fmt: real -> string): string
    requires |X| == |y|
  {
    if |X| == 0 then "" else InLine(X[0], y[0], fmt) + InFile(X[1..], y[1..], fmt)
  }

  /** The numbers `in.txt` carries, in reading order: each row's features
      followed by its target. */
  function Records(X: seq<seq<real>>, y: seq<real>): seq<real>
    requires |X| == |y|
  {
    if |X| == 0 then [] else X[0] + [y[0]] + Records(X[1..], y[1..])
  }

  /** Formatting distributes over concatenation. */
  lemma FormattedAppend(a: seq<real>, b: seq<real>, fmt: real -> string)
    ensures Formatted(a + b, fmt) == Formatted(a, fmt) + Formatted(b, fmt)
  {
  }

  /** The feature fields split into the formatted features, whatever follows. */
  lemma {:induction false} SplitFeatureFields(row: seq<real>, fmt: real -> string, s: string)
    requires TokenFormatter(fmt)
    ensures Split(FeatureFields(row, fmt) + s) == Formatted(row, fmt) + Split(s)
  {
    if |row| == 0 {
      assert FeatureFields(row, fmt) + s == s;
    } else {
      var t := fmt(row[0]);
      var tail := FeatureFields(row[1..], fmt) + s;
      calc {
        Split(FeatureFields(row, fmt) + s);
        { assert FeatureFields(row, fmt) + s == t + (" " + tail); }
        Split(t + (" " + tail));
        { FormatterToken(fmt, row[0]); SplitToken(t, " " + tail); }
        [t] + Split(" " + tail);
        { SplitSkipsWhitespace(" ", tail); }
        [t] + Split(tail);
        { SplitFeatureFields(row[1..], fmt, s); }
        [t] + (Formatted(row[1..], fmt) + Split(s));
        { assert Formatted(row, fmt) == [t] + Formatted(row[1..], fmt); }
        Formatted(row, fmt) + Split(s);
      }
    }
  }

  /** The end of a line, `f" {y[i]}\n"`, splits into the target alone,
      whatever follows the line. */
  lemma SplitLineEnd(target: real, fmt: real -> string, s: string)
    requires TokenFormatter(fmt)
    ensures Split(" " + fmt(target) + "\n" + s) == [fmt(target)] + Split(s)
  {
    var t := fmt(target);
    FormatterToken(fmt, target);
    assert " " + t + "\n" + s == " " + (t + ("\n" + s));
    SplitSkipsWhitespace(" ", t + ("\n" + s));
    SplitToken(t, "\n" + s);
    SplitSkipsWhitespace("\n", s);
  }

  /** A line of `in.txt` splits into its features in column order and then
      its target, whatever follows the line. */
  lemma SplitInLineThen(row: seq<real>, target: real, fmt: real -> string, s: string)
    requires TokenFormatter(fmt)
    ensures Split(InLine(row, target, fmt) + s) == Formatted(row + [target], fmt) + Split(s)
  {
    var tail := " " + fmt(target) + "\n" + s;
    calc {
      Split(InLine(row, target, fmt) + s);
      { assert InLine(row, target, fmt) + s == FeatureFields(row, fmt) + tail; }
      Split(FeatureFields(row, fmt) + tail);
      { SplitFeatureFields(row, fmt, tail); }
      Formatted(row, fmt) + Split(tail);
      { SplitLineEnd(target, fmt, s); }
      Formatted(row, fmt) + ([fmt(target)] + Split(s));
      { FormattedAppend(row, [target], fmt); }
      Formatted(row + [target], fmt) + Split(s);
    }
  }

  /** A single line of `in.txt` holds `|row| + 1` tokens: the features, then
      the target. */
  lemma SplitInLine(row: seq<real>, target: real, fmt: real -> string)
    requires TokenFormatter(fmt)
    ensures Split(InLine(row, target, fmt)) == Formatted(row, fmt) + [fmt(target)]
    ensures |Split(InLine(row, target, fmt))| == |row| + 1
  {
    SplitInLineThen(row, target, fmt, "");
    assert InLine(row, target, fmt) + "" == InLine(row, target, fmt);
    FormattedAppend(row, [target], fmt);
    assert Split("") == [];
  }

  /** Splitting `in.txt` on whitespace yields the formatted records in order. */
  lemma {:induction false} SplitInFile(X: seq<seq<real>>, y: seq<real>, fmt: real -> string)
    requires |X| == |y|
    requires TokenFormatter(fmt)
    ensures Split(InFile(X, y, fmt)) == Formatted(Records(X, y), fmt)
  {
    if |X| > 0 {
      SplitInLineThen(X[0], y[0], fmt, InFile(X[1..], y[1..], fmt));
      SplitInFile(X[1..], y[1..], fmt);
      FormattedAppend(X[0] + [y[0]], Records(X[1..], y[1..]), fmt);
    }
  }

  /** `float` accepts every token. */
  predicate AllNumbers(tokens: seq<string>, parse: string -> Option<real>)
  {
    forall k :: 0 <= k < |tokens| ==> parse(tokens[k]).Some?
  }

  /** `map(float, tokens)` gathered by `np.fromiter`: the first token `float`
      rejects stops the run. */
  function ParseAll(tokens: seq<string>, parse: string -> Option<real>): (r: Result<seq<real>>)
    ensures r.Ok? <==> AllNumbers(tokens, parse)
    ensures r.Ok? ==> |r.value| == |tokens|
    ensures r.Ok? ==> forall k :: 0 <= k < |tokens| ==> parse(tokens[k]) == Some(r.value[k])
    ensures r.Err? ==> exists k :: 0 <= k < |tokens| && parse(tokens[k]).None? && r.error == MalformedNumber(tokens[k])
                                   && forall j :: 0 <= j < k ==> parse(tokens[j]).Some?
  {
    if |tokens| == 0 then Ok([])
    else
      match parse(tokens[0])
      case None => Err(MalformedNumber(tokens[0]))
      case Some(v) =>
        var rest := ParseAll(tokens[1..], parse);
        if rest.Err? then
          var k :| 0 <= k < |tokens[1..]| && parse(tokens[1..][k]).None? && rest.error == MalformedNumber(tokens[1..][k])
                   && forall j :: 0 <= j < k ==> parse(tokens[1..][j]).Some?;
          assert parse(tokens[k + 1]).None? && forall j :: 0 <= j < k + 1 ==> parse(tokens[j]).Some?;
          Err(rest.error)
        else Ok([v] + rest.value)
  }

  /** Parsing formatted numbers gives the numbers back. */
  lemma {:induction false} ParseFormatted(values: seq<real>, fmt: real -> string, parse: string -> Option<real>)
    requires RoundTrips(parse, fmt, values)
    ensures ParseAll(Formatted(values, fmt), parse) == Ok(values)
  {
    if |values| > 0 {
      var tokens := Formatted(values, fmt);
      assert tokens[0] == fmt(values[0]);
      assert parse(fmt(values[0])) == Some(values[0]);
      assert tokens[1..] == Formatted(values[1..], fmt);
      assert RoundTrips(parse, fmt, values[1..]) by {
        forall k | 0 <= k < |values[1..]|
          ensures parse(fmt(values[1..][k])) == Some(values[1..][k])
        {
          assert values[1..][k] == values[k + 1];
        }
      }
      ParseFormatted(values[1..], fmt, parse);
      assert values == [values[0]] + values[1..];
    }
  }

  /** Reading `out.txt`: `np.fromiter(map(float, text.split()), float)`.
      It succeeds exactly when `float` accepts every whitespace-separated
      token, and then yields their values in order; otherwise it reports the
      first token `float` rejects. */
  function ReadNumbers(text: string, parse: string -> Option<real>): (r: Result<seq<real>>)
    ensures var tokens := Split(text);
      && (r.Ok? <==> AllNumbers(tokens, parse))
      && (r.Ok? ==> |r.value| == |tokens|)
      && (r.Ok? ==> forall k :: 0 <= k < |tokens| ==> parse(tokens[k]) == Some(r.value[k]))
      && (r.Err? ==> exists k :: 0 <= k < |tokens| && parse(tokens[k]).None?
                                 && r.error == MalformedNumber(tokens[k])
                                 && forall j :: 0 <= j < k ==> parse(tokens[j]).Some?)
  {
    ParseAll(Split(text), parse)
  }

  /** `lead`, then each token followed by its own run of whitespace. Every
      gap but the last separates two tokens, so it is non-empty; the last
      one is trailing whitespace and may be empty. */
  ghost predicate Separators(gaps: seq<string>)
  {
    && (forall k :: 0 <= k < |gaps| ==> AllWhitespace(gaps[k]))
    && (forall k :: 0 <= k < |gaps| - 1 ==> |gaps[k]| > 0)
  }

  /** Tokens laid out with the given whitespace after each one. */
  function Spaced(tokens: seq<string>, gaps: seq<string>): string
    requires |gaps| == |tokens|
  {
    if |tokens| == 0 then "" else tokens[0] + gaps[0] + Spaced(tokens[1..], gaps[1..])
  }

  /** Tokens separated by arbitrary runs of whitespace split back into the
      same tokens. */
  lemma {:induction false} SplitSpaced(tokens: seq<string>, gaps: seq<string>)
    requires |gaps| == |tokens|
    requires forall k :: 0 <= k < |tokens| ==> IsToken(tokens[k])
    requires Separators(gaps)
    ensures Split(Spaced(tokens, gaps)) == tokens
  {
    if |tokens| > 0 {
      var rest := Spaced(tokens[1..], gaps[1..]);
      assert Spaced(tokens, gaps) == tokens[0] + (gaps[0] + rest);
      if |gaps[0]| == 0 {
        assert |tokens| == 1;
        assert gaps[0] + rest == "";
      } else {
        assert (gaps[0] + rest)[0] == gaps[0][0];
      }
      SplitToken(tokens[0], gaps[0] + rest);
      SplitSkipsWhitespace(gaps[0], rest);
      assert Separators(gaps[1..]) by {
        assert forall k :: 0 <= k < |gaps[1..]| ==> gaps[1..][k] == gaps[k + 1];
      }
      SplitSpaced(tokens[1..], gaps[1..]);
    } else {
      assert Spaced(tokens, gaps) == "";
    }
  }

  /** A coefficient vector written to `out.txt` as numbers separated by any
      whitespace, with any leading or trailing whitespace, is read back
      exactly. */
  lemma CoefficientsRoundTrip(w: seq<real>, fmt: real -> string, parse: string -> Option<real>,
                              lead: string, gaps: seq<string>)
    requires TokenFormatter(fmt) && RoundTrips(parse, fmt, w)
    requires AllWhitespace(lead) && |gaps| == |w| && Separators(gaps)
    ensures ReadNumbers(lead + Spaced(Formatted(w, fmt), gaps), parse) == Ok(w)
  {
    var tokens := Formatted(w, fmt);
    forall k | 0 <= k < |tokens|
      ensures IsToken(tokens[k])
    {
      FormatterToken(fmt, w[k]);
    }
    SplitSkipsWhitespace(lead, Spaced(tokens, gaps));
    SplitSpaced(tokens, gaps);
    ParseFormatted(w, fmt, parse);
  }

  /** One formatter and parser pair that meets the round-trip hypothesis:
      two values written as `"0"` and `"1"`. */
  lemma RoundTripsExample()
    ensures var fmt := (v: real) => if v == 0.0 then "0" else "1";
            var parse := (t: string) => if t == "0" then Some(0.0) else if t == "1" then Some(1.0) else None;
            TokenFormatter(fmt) && RoundTrips(parse, fmt, [0.0, 1.0])
  {
  }

  /** Reading `in.txt` back as numbers recovers every feature and target in
      file order. */
  lemma {:induction false} InFileRoundTrip(X: seq<seq<real>>, y: seq<real>, fmt: real -> string, parse: string -> Option<real>)
    requires |X| == |y|
    requires TokenFormatter(fmt) && RoundTrips(parse, fmt, Records(X, y))
    ensures ReadNumbers(InFile(X, y, fmt), parse) == Ok(Records(X, y))
  {
    SplitInFile(X, y, fmt);
    ParseFormatted(Records(X, y), fmt, parse);
  }
}
