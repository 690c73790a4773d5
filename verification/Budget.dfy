/** Sharing a token budget among the sections of a bootstrap text (commands/bootstrap.py). */
module Budget {
  import LockFile

  const CHARS_PER_TOKEN := 4
  const FLOOR := 200

  datatype Section = Section(resolver: string, heading: string, body: string, share: int)

  function ShareOf(s: Section): (r: int)
    ensures r >= 1
  {
    if s.share > 1 then s.share else 1
  }

  function Shares(sections: seq<Section>, n: nat): (r: int)
    requires n <= |sections|
    ensures r >= n
  {
    if n == 0 then 0 else Shares(sections, n - 1) + ShareOf(sections[n - 1])
  }

  /** sum of shares, or 1 when there are no sections */
  function TotalShare(sections: seq<Section>): (r: int)
    ensures r >= 1
  {
    if Shares(sections, |sections|) == 0 then 1 else Shares(sections, |sections|)
  }

  function Portion(tokens: int, share: int, total: int): int
    requires total > 0
  {
    (tokens * CHARS_PER_TOKEN * share) / total
  }

  function Allowance(tokens: int, share: int, total: int): (r: int)
    requires total > 0
    ensures r >= FLOOR
  {
    if Portion(tokens, share, total) > FLOOR then Portion(tokens, share, total) else FLOOR
  }

  function Notice(cut: nat): string {
    "\n\n\U{2026} [truncated " + LockFile.Decimal(cut) + " chars \U{2014} see source for full text]"
  }

  function Cut(body: string, allowance: nat): string {
    if |body| > allowance then body[..allowance] + Notice(|body| - allowance) else body
  }

  /** _apportion_budget over the first n sections. */
  function Apportioned(sections: seq<Section>, tokens: int, n: nat): (r: seq<Section>)
    requires n <= |sections|
    ensures |r| == n
  {
    if n == 0 then [] else
    var s := sections[n - 1];
    Apportioned(sections, tokens, n - 1) + [s.(body := Cut(s.body, Allowance(tokens, ShareOf(s), TotalShare(sections))))]
  }

  method ApportionBudget(sections: seq<Section>, tokens: int) returns (out: seq<Section>)
    ensures out == Apportioned(sections, tokens, |sections|)
  {
    var total := 0;
    for n := 0 to |sections|
      invariant total == Shares(sections, n)
    {
      total := total + ShareOf(sections[n]);
    }
    if total == 0 {
      total := 1;
    }
    out := [];
    for n := 0 to |sections|
      invariant out == Apportioned(sections, tokens, n)
    {
      var s := sections[n];
      var portion := (tokens * CHARS_PER_TOKEN * ShareOf(s)) / total;
      var allowance := if portion > FLOOR then portion else FLOOR;
      var body := s.body;
      if |body| > allowance {
        var cut := |body| - allowance;
        body := body[..allowance] + Notice(cut);
      }
      out := out + [s.(body := body)];
    }
  }

  // ---------------------------------------------------------------- bounds

  function Portions(sections: seq<Section>, tokens: int, total: int, n: nat): int
    requires n <= |sections| && total > 0
  {
    if n == 0 then 0 else Portions(sections, tokens, total, n - 1) + Portion(tokens, ShareOf(sections[n - 1]), total)
  }

  function Allowances(sections: seq<Section>, tokens: int, total: int, n: nat): int
    requires n <= |sections| && total > 0
  {
    if n == 0 then 0 else Allowances(sections, tokens, total, n - 1) + Allowance(tokens, ShareOf(sections[n - 1]), total)
  }

  /** Rounding down loses less than one character a section. */
  lemma {:induction false} Rounding(sections: seq<Section>, tokens: int, total: int, n: nat)
    requires n <= |sections| && total > 0
    ensures var budget := tokens * CHARS_PER_TOKEN;
            budget * Shares(sections, n) - n * (total - 1)
              <= total * Portions(sections, tokens, total, n) <= budget * Shares(sections, n)
  {
    if n > 0 {
      Rounding(sections, tokens, total, n - 1);
      var budget, share := tokens * CHARS_PER_TOKEN, ShareOf(sections[n - 1]);
      Divided(budget * share, total);
      OneMore(budget, Shares(sections, n - 1), share, total, Portions(sections, tokens, total, n - 1),
              Portion(tokens, share, total), n - 1);
    }
  }

  lemma Divided(a: int, b: int)
    requires b > 0
    ensures a - (b - 1) <= b * (a / b) <= a
  {}

  lemma OneMore(budget: int, shares: int, share: int, total: int, portions: int, portion: int, n: int)
    requires budget * shares - n * (total - 1) <= total * portions <= budget * shares
    requires budget * share - (total - 1) <= total * portion <= budget * share
    ensures budget * (shares + share) - (n + 1) * (total - 1) <= total * (portions + portion) <= budget * (shares + share)
  {
    assert budget * (shares + share) == budget * shares + budget * share;
    assert total * (portions + portion) == total * portions + total * portion;
    assert (n + 1) * (total - 1) == n * (total - 1) + (total - 1);
  }

  lemma Smaller(t: int, x: int, y: int)
    requires t > 0 && t * x <= t * y
    ensures x <= y
  {}

  /** Dividing an inequality by a positive number. */
  lemma Cancel(t: int, a: int, b: int, n: nat)
    requires t > 0 && a * t - n * (t - 1) <= t * b <= a * t && n > 0
    ensures a - n < b <= a
  {
    Smaller(t, b, a);
    assert t * (a - n) + n == a * t - n * (t - 1);
    Rounded(t, a - n, b, n);
  }

  lemma Rounded(t: int, x: int, y: int, n: int)
    requires t > 0 && n > 0 && t * x + n <= t * y
    ensures x < y
  {}

  /** The portions together are at most the budget, and miss it by less than one character a section. */
  lemma {:induction false} PortionsBound(sections: seq<Section>, tokens: int)
    requires sections != []
    ensures var p := Portions(sections, tokens, TotalShare(sections), |sections|);
            tokens * CHARS_PER_TOKEN - |sections| < p <= tokens * CHARS_PER_TOKEN
  {
    var total := TotalShare(sections);
    assert total == Shares(sections, |sections|);
    Rounding(sections, tokens, total, |sections|);
    Cancel(total, tokens * CHARS_PER_TOKEN, Portions(sections, tokens, total, |sections|), |sections|);
  }

  lemma {:induction false} FloorsBound(sections: seq<Section>, tokens: int, total: int, n: nat)
    requires n <= |sections| && total > 0 && tokens >= 0
    ensures Allowances(sections, tokens, total, n) <= Portions(sections, tokens, total, n) + FLOOR * n
  {
    if n > 0 {
      FloorsBound(sections, tokens, total, n - 1);
      NonNegative(tokens, ShareOf(sections[n - 1]), total);
    }
  }

  lemma NonNegative(tokens: int, share: int, total: int)
    requires tokens >= 0 && share >= 0 && total > 0
    ensures Portion(tokens, share, total) >= 0
  {
    assert tokens * CHARS_PER_TOKEN * share >= 0;
  }

  /** The floor is never hit: every portion is at least the floor. */
  ghost predicate NoFloor(sections: seq<Section>, tokens: int, total: int)
    requires total > 0
  {
    forall k :: 0 <= k < |sections| ==> Portion(tokens, ShareOf(sections[k]), total) >= FLOOR
  }

  lemma {:induction false} NoFloorSum(sections: seq<Section>, tokens: int, total: int, n: nat)
    requires n <= |sections| && total > 0 && NoFloor(sections, tokens, total)
    ensures Allowances(sections, tokens, total, n) == Portions(sections, tokens, total, n)
  {
    hide Portion;
    if n > 0 {
      NoFloorSum(sections, tokens, total, n - 1);
      assert Portion(tokens, ShareOf(sections[n - 1]), total) >= FLOOR;
    }
  }

  /** All allowances together are at most the budget plus the floor for every section; when the floor is
      never hit they are at most the budget and miss it by less than one character a section. */
  lemma {:induction false} AllowancesBound(sections: seq<Section>, tokens: int)
    requires sections != [] && tokens >= 0
    ensures var sum := Allowances(sections, tokens, TotalShare(sections), |sections|);
            var budget := CHARS_PER_TOKEN * tokens;
            && sum <= budget + FLOOR * |sections|
            && (NoFloor(sections, tokens, TotalShare(sections)) ==> budget - |sections| < sum <= budget)
  {
    var total := TotalShare(sections);
    PortionsBound(sections, tokens);
    FloorsBound(sections, tokens, total, |sections|);
    if NoFloor(sections, tokens, total) { NoFloorSum(sections, tokens, total, |sections|); }
  }

  // ---------------------------------------------------------------- what is kept

  /** Every section stays in place with its heading; its body is kept whole if it fits its allowance, and
      otherwise exactly that many of its characters are kept, in front of a notice of how many were cut. */
  lemma {:induction false} Kept(sections: seq<Section>, tokens: int, n: nat, k: nat)
    requires k < n <= |sections|
    ensures var a := Allowance(tokens, ShareOf(sections[k]), TotalShare(sections));
            var s, out := sections[k], Apportioned(sections, tokens, n)[k];
            && out.resolver == s.resolver && out.heading == s.heading && out.share == s.share
            && (if |s.body| <= a then out.body == s.body
                else |out.body| >= a && out.body[..a] == s.body[..a] && out.body[a..] == Notice(|s.body| - a))
  {
    hide Allowance;
    hide Notice;
    if k < n - 1 {
      Kept(sections, tokens, n - 1, k);
    } else {
      var s := sections[k];
      var a := Allowance(tokens, ShareOf(s), TotalShare(sections));
      if |s.body| > a {
        var body := s.body[..a] + Notice(|s.body| - a);
        assert body[..a] == s.body[..a] && body[a..] == Notice(|s.body| - a);
      }
    }
  }
}
