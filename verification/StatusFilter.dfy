/** ParseStatusFilter of internal/api/handler.go: a comma-separated list of statuses. */
module StatusFilter {
  import opened Text

  /** A status that survives parsing as it is. */
  ghost predicate IsToken(t: string) {
    t != "" && Trimmed(t, IsSpace) && ',' !in t
  }

  ghost predicate Tokens(ts: seq<string>) {
    forall t :: t in ts ==> IsToken(t)
  }

  /** What the loop keeps of the parts. */
  function Keep(parts: seq<string>): seq<string> {
    if parts == [] then []
    else
      var rest := Keep(parts[..|parts| - 1]);
      var t := TrimSpace(parts[|parts| - 1]);
      if t == "" then rest else rest + [t]
  }

  function Parse(value: string): seq<string> {
    if value == "" then [] else Keep(Split(value, ','))
  }

  method ParseStatusFilter(value: string) returns (out: seq<string>)
    ensures out == Parse(value)
    ensures Tokens(out)
  {
    if value == "" {
      return [];
    }
    var parts := Split(value, ',');
    out := [];
    for i := 0 to |parts|
      invariant out == Keep(parts[..i])
    {
      assert parts[..i + 1][..i] == parts[..i];
      var trimmed := TrimSpace(parts[i]);
      if trimmed != "" {
        out := out + [trimmed];
      }
    }
    assert parts[..|parts|] == parts;
    ParseGivesTokens(value);
  }

  lemma {:induction false} KeepGivesTokens(parts: seq<string>)
    requires forall p :: p in parts ==> ',' !in p
    ensures Tokens(Keep(parts))
  {
    if parts != [] {
      KeepGivesTokens(parts[..|parts| - 1]);
      TrimShape(parts[|parts| - 1], IsSpace);
    }
  }

  /** Every string parses to tokens. */
  lemma ParseGivesTokens(value: string)
    ensures Tokens(Parse(value))
  {
    SplitPieces(value, ',');
    KeepGivesTokens(Split(value, ','));
  }

  lemma {:induction false} KeepConcat(a: seq<string>, b: seq<string>)
    ensures Keep(a + b) == Keep(a) + Keep(b)
    decreases |b|
  {
    if b == [] {
      assert a + b == a;
    } else {
      KeepConcat(a, b[..|b| - 1]);
      assert (a + b)[..|a + b| - 1] == a + b[..|b| - 1];
    }
  }

  lemma ParseIsKeep(value: string)
    ensures Parse(value) == Keep(Split(value, ','))
  {
    if value == "" {
      assert [""][..0] == [];
      TrimFixes("", IsSpace);
    }
  }

  /** A comma separates: whatever the two sides are, they are parsed one after the other. */
  lemma ParseConcat(x: string, y: string)
    ensures Parse(x + "," + y) == Parse(x) + Parse(y)
  {
    SplitConcat(x, y, ',');
    KeepConcat(Split(x, ','), Split(y, ','));
    ParseIsKeep(x);
    ParseIsKeep(y);
    ParseIsKeep(x + "," + y);
  }

  /** Between commas, a token with white space round it is that token, and white space alone is nothing. */
  lemma ParsePart(before: string, t: string, after: string)
    requires AllCut(before, IsSpace) && AllCut(after, IsSpace) && (t == "" || IsToken(t))
    ensures Parse(before + t + after) == if t == "" then [] else [t]
  {
    var part := before + t + after;
    assert ',' !in part by {
      assert !IsSpace(',');
    }
    SplitHead(part, "", ',');
    ParseIsKeep(part);
    TrimRemovesPadding(before, t, after, IsSpace);
    assert [part][..0] == [];
  }

  lemma {:induction false} KeepFixesTokens(ts: seq<string>)
    requires Tokens(ts)
    ensures Keep(ts) == ts
  {
    if ts != [] {
      KeepFixesTokens(ts[..|ts| - 1]);
      assert ts[|ts| - 1] in ts;
      TrimFixes(ts[|ts| - 1], IsSpace);
      assert ts == ts[..|ts| - 1] + [ts[|ts| - 1]];
    }
  }

  /** Parsing inverts joining tokens with commas. */
  lemma ParseInvertsJoin(ts: seq<string>)
    requires Tokens(ts)
    ensures Parse(Join(ts, ',')) == ts
  {
    if ts != [] {
      assert ts[0] in ts;
      SplitInvertsJoin(ts, ',');
      KeepFixesTokens(ts);
    }
  }

  /** Normal forms: parse, join and parse again gives the same list for every string. */
  lemma ParseJoinParse(value: string)
    ensures Parse(Join(Parse(value), ',')) == Parse(value)
  {
    ParseGivesTokens(value);
    ParseInvertsJoin(Parse(value));
  }
}
