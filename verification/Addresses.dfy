/** The payout address inside a worker name of the form `<address>.<rig>` (payoutAddressFromWorker). */
module Addresses {

  /** unicode.IsSpace, the class of characters strings.TrimSpace removes. */
  predicate IsSpace(c: char) {
    || '\t' <= c <= '\r' || c == ' ' || c == '\U{0085}' || c == '\U{00A0}' || c == '\U{1680}'
    || '\U{2000}' <= c <= '\U{200A}' || c == '\U{2028}' || c == '\U{2029}' || c == '\U{202F}'
    || c == '\U{205F}' || c == '\U{3000}'
  }

  function TrimLeft(s: string): string {
    if s != "" && IsSpace(s[0]) then TrimLeft(s[1..]) else s
  }

  function TrimRight(s: string): string {
    if s != "" && IsSpace(s[|s| - 1]) then TrimRight(s[..|s| - 1]) else s
  }

  function TrimSpace(s: string): string {
    TrimRight(TrimLeft(s))
  }

  /** The first piece of strings.SplitN(s, ".", 2). */
  function UpToDot(s: string): string {
    if s == "" || s[0] == '.' then "" else [s[0]] + UpToDot(s[1..])
  }

  function PayoutAddress(worker: string): string {
    var trimmed := TrimSpace(worker);
    if trimmed == "" then "" else TrimSpace(UpToDot(trimmed))
  }

  /** No dot, and no space at either end. */
  predicate IsClean(s: string) {
    && '.' !in s
    && (s != "" ==> !IsSpace(s[0]) && !IsSpace(s[|s| - 1]))
  }

  lemma {:induction false} TrimLeftShape(s: string)
    ensures TrimLeft(s) != "" ==> !IsSpace(TrimLeft(s)[0])
    ensures forall c :: c in TrimLeft(s) ==> c in s
  {
    if s != "" && IsSpace(s[0]) {
      TrimLeftShape(s[1..]);
    }
  }

  lemma {:induction false} TrimRightShape(s: string)
    ensures TrimRight(s) <= s
    ensures TrimRight(s) != "" ==> !IsSpace(TrimRight(s)[|TrimRight(s)| - 1])
  {
    if s != "" && IsSpace(s[|s| - 1]) {
      TrimRightShape(s[..|s| - 1]);
    }
  }

  lemma {:induction false} UpToDotHasNoDot(s: string)
    ensures '.' !in UpToDot(s)
  {
    if s != "" && s[0] != '.' {
      UpToDotHasNoDot(s[1..]);
    }
  }

  lemma {:induction false} UpToDotOfPair(a: string, rest: string)
    requires '.' !in a && (rest == "" || rest[0] == '.')
    ensures UpToDot(a + rest) == a
  {
    if a == "" {
      assert a + rest == rest;
    } else {
      assert (a + rest)[1..] == a[1..] + rest;
      UpToDotOfPair(a[1..], rest);
    }
  }

  /** Whatever a miner sends, the address credited is clean. */
  lemma AddressIsClean(worker: string)
    ensures IsClean(PayoutAddress(worker))
  {
    var head := UpToDot(TrimSpace(worker));
    UpToDotHasNoDot(TrimSpace(worker));
    TrimLeftShape(head);
    TrimRightShape(TrimLeft(head));
  }

  lemma {:induction false} TrimRightKeepsHead(a: string, rest: string)
    requires a != "" && !IsSpace(a[|a| - 1])
    ensures exists r :: TrimRight(a + rest) == a + r && r <= rest
  {
    var s := a + rest;
    if rest == "" {
      assert s == a && TrimRight(s) == a + "";
    } else if IsSpace(s[|s| - 1]) {
      assert s[..|s| - 1] == a + rest[..|rest| - 1];
      TrimRightKeepsHead(a, rest[..|rest| - 1]);
    } else {
      assert TrimRight(s) == a + rest;
    }
  }

  /** All rigs of one address are credited to that address. */
  lemma RigsShareTheAddress(a: string, rig: string)
    requires a != "" && IsClean(a)
    ensures PayoutAddress(a + "." + rig) == a
    ensures PayoutAddress(a) == a
  {
    CleanHead(a, "." + rig);
    assert a + "." + rig == a + ("." + rig);
    CleanHead(a, "");
    assert a + "" == a;
  }

  lemma CleanHead(a: string, rest: string)
    requires a != "" && IsClean(a) && (rest == "" || rest[0] == '.')
    ensures PayoutAddress(a + rest) == a
  {
    assert TrimLeft(a + rest) == a + rest;
    TrimRightKeepsHead(a, rest);
    var r :| TrimRight(a + rest) == a + r && r <= rest;
    UpToDotOfPair(a, r);
    assert TrimLeft(a) == a && TrimRight(a) == a;
  }

  predicate Spaces(s: string) {
    forall i :: 0 <= i < |s| ==> IsSpace(s[i])
  }

  lemma {:induction false} TrimLeftSpaces(lead: string, s: string)
    requires Spaces(lead) && (s != "" ==> !IsSpace(s[0]))
    ensures TrimLeft(lead + s) == s
  {
    if lead == "" {
      assert lead + s == s;
    } else {
      assert (lead + s)[1..] == lead[1..] + s;
      TrimLeftSpaces(lead[1..], s);
    }
  }

  lemma {:induction false} TrimRightSpaces(s: string, trail: string)
    requires Spaces(trail) && (s != "" ==> !IsSpace(s[|s| - 1]))
    ensures TrimRight(s + trail) == s
  {
    if trail == "" {
      assert s + trail == s;
    } else {
      assert (s + trail)[..|s + trail| - 1] == s + trail[..|trail| - 1];
      TrimRightSpaces(s, trail[..|trail| - 1]);
    }
  }

  /** Every worker name is spaces, an address, spaces, and then either nothing or a dot and the rig: that address is
      credited. */
  lemma AddressIsBetweenSpaces(lead: string, a: string, trail: string, rest: string)
    requires Spaces(lead) && Spaces(trail) && IsClean(a) && a != "" && (rest == "" || rest[0] == '.')
    ensures PayoutAddress(lead + a + trail + rest) == a
  {
    var s := a + trail + rest;
    assert lead + a + trail + rest == lead + s && s[0] == a[0];
    TrimLeftSpaces(lead, s);
    assert s == a + (trail + rest);
    TrimRightKeepsHead(a, trail + rest);
    var r :| TrimRight(s) == a + r && r <= trail + rest;
    NoDotInSpaces(trail);
    var head := if |r| <= |trail| then r else trail;
    assert Spaces(head) && '.' !in a + head;
    assert a + r == (a + head) + r[|head|..];
    assert |r| > |trail| ==> r[|trail|] == rest[0];
    UpToDotOfPair(a + head, r[|head|..]);
    TrimLeftSpaces("", a + head);
    assert "" + (a + head) == a + head;
    TrimRightSpaces(a, head);
  }

  lemma NoDotInSpaces(s: string)
    requires Spaces(s)
    ensures '.' !in s
  {
  }

  /** Spaces alone, or before a dot, are no address. */
  lemma SpacesAreNoAddress(lead: string, rest: string)
    requires Spaces(lead) && (rest == "" || rest[0] == '.')
    ensures PayoutAddress(lead + rest) == ""
  {
    TrimLeftSpaces(lead, rest);
    TrimRightShape(rest);
    if TrimRight(rest) != "" {
      assert TrimRight(rest)[0] == '.';
    }
  }
}
