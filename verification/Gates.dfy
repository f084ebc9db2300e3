/** What the gated activations compute, by the laws that fix them. */
module Gates {
  import opened Sums
  import opened Exponential
  import opened HostExperts

  /** exp(-a) is one over exp(a). */
  lemma ExpNegated(exp: ExpFn, a: real)
    ensures Mul(Exp(exp, a), Exp(exp, -a)) == 1.0
  {
    ExpAdd(exp, a, -a);
    ExpZero(exp);
    assert a + -a == 0.0;
  }

  /** g / (1 + e') and -g / (1 + e), when e and e' are inverse. */
  lemma Mirror(g: real, e: real, e': real)
    requires e > 0.0 && e' > 0.0 && Mul(e, e') == 1.0
    ensures g / (1.0 + e') - (-g) / (1.0 + e) == g
    ensures g / (1.0 + e') == -Mul(e, (-g) / (1.0 + e))
  {
    var a, b := g / (1.0 + e'), (-g) / (1.0 + e);
    assert a * (1.0 + e') == g && b * (1.0 + e) == -g;
    assert e * (a * (1.0 + e')) == a * (e + e * e');
    assert a * (1.0 + e) == e * g;
    assert (a + e * b) * (1.0 + e) == 0.0;
    Factor(a + e * b, 1.0 + e);
  }

  lemma Factor(x: real, y: real)
    requires y > 0.0 && x * y == 0.0
    ensures x == 0.0
  {
  }

  lemma Scaled(a: real, b: real, g: real, e: real, u: real)
    requires a - b == g && a == -Mul(e, b)
    ensures Mul(a, u) - Mul(b, u) == Mul(g, u) && Mul(a, u) == Mul(e, -Mul(b, u))
  {
    assert a * u - b * u == (a - b) * u;
    assert -(e * b) * u == e * -(b * u);
  }

  /**
   SwiGLU: the values at g and -g differ by g u, and are to each other as -exp(g) to one. With exp(g) positive
   the two leave one value.
   */
  lemma SwigluLaws(exp: ExpFn, g: real, u: real)
    ensures Activate(exp, Swiglu, g, u) - Activate(exp, Swiglu, -g, u) == Mul(g, u)
    ensures Activate(exp, Swiglu, g, u) == Mul(Exp(exp, g), -Activate(exp, Swiglu, -g, u))
  {
    hide Exp, Mul;
    ExpNegated(exp, g);
    assert -(-g) == g;
    Mirror(g, Exp(exp, g), Exp(exp, -g));
    Scaled(g / (1.0 + Exp(exp, -g)), (-g) / (1.0 + Exp(exp, g)), g, Exp(exp, g), u);
  }

  /** The OpenAI variant within its limit: the same laws with alpha in the exponent and one added to u. */
  lemma OaiLaws(exp: ExpFn, alpha: real, limit: real, g: real, u: real)
    requires -limit <= g <= limit && -limit <= u <= limit
    ensures var act := SwigluOai(alpha, limit);
      && Activate(exp, act, g, u) - Activate(exp, act, -g, u) == Mul(g, u + 1.0)
      && Activate(exp, act, g, u) == Mul(Exp(exp, Mul(alpha, g)), -Activate(exp, act, -g, u))
  {
    var a := Mul(alpha, g);
    assert Mul(alpha, -g) == -a && Mul(alpha, -(-g)) == a;
    hide Exp, Mul;
    ExpNegated(exp, a);
    Mirror(g, Exp(exp, a), Exp(exp, -a));
    Scaled(g / (1.0 + Exp(exp, -a)), (-g) / (1.0 + Exp(exp, a)), g, Exp(exp, a), u + 1.0);
  }

  /**
   The limit: a gate above it counts as the limit, an up value beyond it on either side as the limit on that
   side, and a wider limit makes no difference to a gate below this one and an up value within it.
   */
  lemma OaiLimits(exp: ExpFn, alpha: real, limit: real, wider: real, g: real, u: real)
    requires 0.0 <= limit <= wider
    ensures var act := SwigluOai(alpha, limit);
      && (g >= limit ==> Activate(exp, act, g, u) == Activate(exp, act, limit, u))
      && (u >= limit ==> Activate(exp, act, g, u) == Activate(exp, act, g, limit))
      && (u <= -limit ==> Activate(exp, act, g, u) == Activate(exp, act, g, -limit))
      && (g <= limit && -limit <= u <= limit ==>
            Activate(exp, act, g, u) == Activate(exp, SwigluOai(alpha, wider), g, u))
  {
    hide Exp, Mul;
  }

  /** The laws leave one value: whatever meets them at g, with some partner at -g, is the activation. */
  lemma LawsDecide(e: real, gu: real, a: real, b: real, a': real, b': real)
    requires e > 0.0 && a - b == gu && a == Mul(e, -b) && a' - b' == gu && a' == Mul(e, -b')
    ensures a == a'
  {
    assert (b - b') * (1.0 + e) == 0.0;
    Factor(b - b', 1.0 + e);
  }

  // ---- rows of an expert --------------------------------------------------------------------------

  /** Gate and up value of row r, biases included. */
  ghost function GateValue(m: Model, e: Expert, x: seq<real>, r: nat): real {
    NaiveRow(m.dec, m.gate, e.gate, r, x) + if e.bias.Bias? then LdF32(m.dec, e.bias.gate, r) else 0.0
  }

  ghost function UpValue(m: Model, e: Expert, x: seq<real>, r: nat): real {
    NaiveRow(m.dec, m.up, e.up, r, x) + if e.bias.Bias? then LdF32(m.dec, e.bias.up, r) else 0.0
  }

  /**
   Two experts with the same up value and opposite gate values in a row: their activations there obey the laws,
   so the gate bank gates and the up bank does not.
   */
  lemma RowLaws(m: Model, e: Expert, f: Expert, x: seq<real>, r: nat)
    requires m.act == Swiglu
    requires GateValue(m, f, x, r) == -GateValue(m, e, x, r) && UpValue(m, f, x, r) == UpValue(m, e, x, r)
    ensures ActRow(m, e, x, r) - ActRow(m, f, x, r) == Mul(GateValue(m, e, x, r), UpValue(m, e, x, r))
    ensures ActRow(m, e, x, r) == Mul(Exp(m.exp, GateValue(m, e, x, r)), -ActRow(m, f, x, r))
  {
    hide NaiveRow, LdF32, Activate;
    var g, u := GateValue(m, e, x, r), UpValue(m, e, x, r);
    assert ActRow(m, e, x, r) == Activate(m.exp, Swiglu, g, u);
    assert ActRow(m, f, x, r) == Activate(m.exp, Swiglu, -g, u);
    SwigluLaws(m.exp, g, u);
  }
}
