/** The names the driver publishes. They are kept apart by kind and number; `Text` and the
    lemmas below show that their rendered strings are equal only when the names are. */
module Names {
  import opened Decimal
  import opened Topology

  datatype DeviceName = ChipName(chip: nat) | TrayName(tray: nat) | MeshName(slug: string, origin: nat)

  /** A counter set, by its place in the node's list. */
  datatype SetName = SetName(index: nat)

  /** A chip's own counter. */
  datatype CounterName = CounterName(chip: uint32)

  function Text(n: DeviceName): string {
    match n
    case ChipName(chip) => "tt-" + Render(chip)
    case TrayName(tray) => "tt-tray-" + Render(tray)
    case MeshName(slug, origin) => "tt-mesh-" + slug + "-" + Render(origin)
  }

  function SetText(n: SetName): string { "tt-chips-" + Render(n.index) }

  function CounterText(n: CounterName): string { "chip-" + Render(n.chip) }

  lemma PrefixInjective(prefix: string, m: nat, n: nat)
    requires prefix + Render(m) == prefix + Render(n)
    ensures m == n
  {
    assert (prefix + Render(m))[|prefix|..] == Render(m);
    assert (prefix + Render(n))[|prefix|..] == Render(n);
    RenderInjective(m, n);
  }

  lemma DashPlace(a: string, m: nat, k: nat)
    requires |a| <= k < |a + "-" + Render(m)|
    ensures (a + "-" + Render(m))[k] == '-' <==> k == |a|
  {
    if k > |a| { assert IsDigit(Render(m)[k - |a| - 1]); }
  }

  /** The digits after the last dash are the number, so they fix where the slug ends. */
  lemma DashInjective(a: string, b: string, m: nat, n: nat)
    requires a + "-" + Render(m) == b + "-" + Render(n)
    ensures a == b && m == n
  {
    var x, y := a + "-" + Render(m), b + "-" + Render(n);
    var k := if |a| < |b| then |b| else |a|;
    DashPlace(a, m, k);
    DashPlace(b, n, k);
    assert |a| == |b|;
    assert x[..|a|] == a && y[..|a|] == b;
    assert x[|a| + 1..] == Render(m) && y[|a| + 1..] == Render(n);
    RenderInjective(m, n);
  }

  /** Device names of all kinds render to different strings. */
  lemma TextInjective(m: DeviceName, n: DeviceName)
    requires Text(m) == Text(n)
    ensures m == n
  {
    assert Text(m)[3] == match m case ChipName(c) => Render(c)[0] case TrayName(_) => 't' case MeshName(_, _) => 'm';
    assert Text(n)[3] == match n case ChipName(c) => Render(c)[0] case TrayName(_) => 't' case MeshName(_, _) => 'm';
    match (m, n) {
      case (ChipName(c), ChipName(d)) => PrefixInjective("tt-", c, d);
      case (TrayName(t), TrayName(u)) => PrefixInjective("tt-tray-", t, u);
      case (MeshName(s, c), MeshName(u, d)) =>
        DashInjective("tt-mesh-" + s, "tt-mesh-" + u, c, d);
        assert ("tt-mesh-" + s)[8..] == s && ("tt-mesh-" + u)[8..] == u;
      case _ =>
    }
  }

  lemma SetTextInjective(m: SetName, n: SetName)
    requires SetText(m) == SetText(n)
    ensures m == n
  {
    PrefixInjective("tt-chips-", m.index, n.index);
  }

  lemma CounterTextInjective(m: CounterName, n: CounterName)
    requires CounterText(m) == CounterText(n)
    ensures m == n
  {
    PrefixInjective("chip-", m.chip, n.chip);
  }
}
