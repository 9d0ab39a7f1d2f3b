/**
 Resolution of a widget's string options. A plain option (title, unit,
 command) takes effect whenever its key is present, even with an empty
 value. A list option (metrics, headers) takes effect only when its raw
 value is non-empty; it is then trimmed and split on commas, and the
 tokens themselves are not trimmed.
 */
module WidgetOptions {
  import opened Strings

  /** A widget's options, keyed by option name. */
  type Options = map<string, string>

  /** The option keys the host widgets read. */
  const TitleKey: string := "title"
  const UnitKey: string := "unit"
  const MetricsKey: string := "metrics"
  const HeadersKey: string := "headers"
  const CommandKey: string := "command"

  /** A presence-based option: the configured value when the key is set, else `default`. */
  function ValueOr(opts: Options, key: string, default: string): string {
    if key in opts then opts[key] else default
  }

  /** The raw value of a list option is set and non-empty, so it overrides the default. */
  predicate ListGiven(opts: Options, key: string) {
    key in opts && |opts[key]| > 0
  }

  /**
   A list option: when given, the comma-separated tokens of the trimmed
   value (never empty; re-joined with commas they give the trimmed value
   back); otherwise `default`.
   */
  function ListOr(opts: Options, key: string, default: seq<string>): (r: seq<string>)
    ensures ListGiven(opts, key) ==> |r| >= 1 && SeparatorFree(r, ',') && Join(r, ',') == TrimSpace(opts[key])
    ensures !ListGiven(opts, key) ==> r == default
  {
    if ListGiven(opts, key) then Split(TrimSpace(opts[key]), ',') else default
  }

  /** The tokens of a given list option are determined by its trimmed value. */
  lemma ListOrTokens(opts: Options, key: string, default: seq<string>, tokens: seq<string>)
    requires ListGiven(opts, key)
    requires |tokens| >= 1 && SeparatorFree(tokens, ',')
    requires Join(tokens, ',') == TrimSpace(opts[key])
    ensures ListOr(opts, key, default) == tokens
  {
    SplitJoin(tokens, ',');
  }

  /** Trimming removes exactly the white space around a trimmed core. */
  lemma {:induction false} TrimSpaceAround(lead: string, t: string, trail: string)
    requires AllSpace(lead) && AllSpace(trail) && Trimmed(t)
    ensures TrimSpace(lead + t + trail) == t
  {
    assert TrimLeft(lead + t + trail) == TrimLeft(t + trail) by {
      assert lead + t + trail == lead + (t + trail);
      TrimLeftSpaces(lead, t + trail);
    }
    if |t| == 0 {
      assert TrimLeft(t + trail) == "" by {
        assert t + trail == trail + "";
        TrimLeftSpaces(trail, "");
      }
    } else {
      assert TrimLeft(t + trail) == t + trail by {
        assert (t + trail)[0] == t[0];
      }
      assert TrimRight(t + trail) == t by {
        TrimRightSpaces(t, trail);
      }
    }
  }

  lemma {:induction false} TrimLeftSpaces(lead: string, rest: string)
    requires AllSpace(lead)
    ensures TrimLeft(lead + rest) == TrimLeft(rest)
    decreases |lead|
  {
    if |lead| > 0 {
      assert (lead + rest)[1..] == lead[1..] + rest;
      TrimLeftSpaces(lead[1..], rest);
    } else {
      assert lead + rest == rest;
    }
  }

  lemma {:induction false} TrimRightSpaces(t: string, trail: string)
    requires AllSpace(trail)
    requires |t| == 0 || !IsSpace(t[|t| - 1])
    ensures TrimRight(t + trail) == t
    decreases |trail|
  {
    if |trail| > 0 {
      assert (t + trail)[..|t + trail| - 1] == t + trail[..|trail| - 1];
      TrimRightSpaces(t, trail[..|trail| - 1]);
    } else {
      assert t + trail == t;
    }
  }

  lemma TrimSpacedTokens()
    ensures TrimSpace(" A, B ") == "A, B"
  {
    assert " A, B " == " " + "A, B" + " ";
    TrimSpaceAround(" ", "A, B", " ");
  }

  lemma JoinSpacedTokens()
    ensures Join(["A", " B"], ',') == "A, B"
  {
    assert Join([" B"], ',') == " B";
  }

  /** Tokens keep their inner spaces: " A, B " gives "A" and " B". */
  lemma TokensAreNotTrimmed(opts: Options, key: string, default: seq<string>)
    requires key in opts && opts[key] == " A, B "
    ensures ListOr(opts, key, default) == ["A", " B"]
  {
    var tokens := ["A", " B"];
    assert SeparatorFree(tokens, ',');
    assert Join(tokens, ',') == TrimSpace(opts[key]) by {
      TrimSpacedTokens();
      JoinSpacedTokens();
    }
    ListOrTokens(opts, key, default, tokens);
  }

  /** A non-empty value of white space alone overrides, with one empty token. */
  lemma BlankListGivesEmptyToken(opts: Options, key: string, default: seq<string>)
    requires key in opts && |opts[key]| > 0 && AllSpace(opts[key])
    ensures ListOr(opts, key, default) == [""]
  {
    assert TrimSpace(opts[key]) == "" by {
      assert opts[key] + "" + "" == opts[key];
      TrimSpaceAround(opts[key], "", "");
    }
    ListOrTokens(opts, key, default, [""]);
  }
}
