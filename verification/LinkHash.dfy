/** The hash of a resolved link (internal/controller/machinegroup_controller.go,
    resolvedLinkHash), up to SHA-256: which changes of an entry the hashed text shows. */
module LinkHash {
  import opened Prelude
  import opened Api

  function Concat(parts: seq<string>): string {
    if |parts| == 0 then "" else Concat(parts[..|parts| - 1]) + parts[|parts| - 1]
  }

  function SecretName(r: ResolvedLink): string {
    if r.tlsSecret.Some? then r.tlsSecret.value else ""
  }

  /** The pieces written before the addresses. */
  function Front(r: ResolvedLink): seq<string> {
    [r.uid, r.name, r.namespace, r.routeNamespace, r.frontendUser, Itoa(r.port), r.clusterName, r.nsServerAddr]
  }

  /** What is fed to SHA-256: the fields one after the other, with nothing between them. */
  function HashText(r: ResolvedLink): string {
    Concat(Front(r) + r.pdAddresses + [SecretName(r)])
  }

  /** Writes the pieces in turn. */
  method Write(text: string, parts: seq<string>) returns (after: string)
    ensures after == text + Concat(parts)
  {
    after := text;
    assert text == text + Concat(parts[..0]);
    for i := 0 to |parts|
      invariant after == text + Concat(parts[..i])
    {
      ConcatLast(parts[..i], parts[i]);
      assert parts[..i + 1] == parts[..i] + [parts[i]];
      after := after + parts[i];
    }
    assert parts[..|parts|] == parts;
  }

  /** resolvedLinkHash, up to SHA-256. */
  method ResolvedLinkHash(r: ResolvedLink) returns (text: string)
    ensures text == HashText(r)
  {
    text := Write("", Front(r));
    text := Write(text, r.pdAddresses);
    ConcatAppend(Front(r), r.pdAddresses);
    ConcatLast(Front(r) + r.pdAddresses, SecretName(r));
    if r.tlsSecret.Some? {
      text := text + r.tlsSecret.value;
    } else {
      assert text + "" == text;
    }
  }

  // ---------------------------------------------------------------- concatenation

  lemma {:induction false} ConcatLast(parts: seq<string>, last: string)
    ensures Concat(parts + [last]) == Concat(parts) + last
  {
    assert (parts + [last])[..|parts|] == parts;
  }

  lemma {:induction false} ConcatAppend(a: seq<string>, b: seq<string>)
    ensures Concat(a + b) == Concat(a) + Concat(b)
  {
    if |b| == 0 {
      assert a + b == a;
    } else {
      var init, last := b[..|b| - 1], b[|b| - 1];
      ConcatAppend(a, init);
      assert a + b == (a + init) + [last];
      assert Concat(a + b) == Concat(a + init) + last && Concat(b) == Concat(init) + last;
      ConcatLast(a + init, last);
    }
  }

  ghost predicate SameLengths(a: seq<string>, b: seq<string>) {
    |a| == |b| && forall i | 0 <= i < |a| :: |a[i]| == |b[i]|
  }

  /** Pieces of known lengths can be read back from their concatenation. */
  lemma {:induction false} ConcatInjective(a: seq<string>, b: seq<string>)
    requires SameLengths(a, b)
    ensures |Concat(a)| == |Concat(b)|
    ensures Concat(a) == Concat(b) <==> a == b
  {
    if |a| > 0 {
      var n := |a| - 1;
      ConcatInjective(a[..n], b[..n]);
      Split(Concat(a[..n]), a[n], Concat(b[..n]), b[n]);
      assert a == a[..n] + [a[n]] && b == b[..n] + [b[n]];
    }
  }

  lemma {:induction false} Split(a: string, b: string, c: string, d: string)
    requires |a| == |c| || |b| == |d|
    ensures a + b == c + d <==> a == c && b == d
  {
    if a + b == c + d {
      assert |a + b| == |c + d|;
      assert (a + b)[..|a|] == a && (c + d)[..|c|] == c;
      assert (a + b)[|a|..] == b && (c + d)[|c|..] == d;
    }
  }

  /** Replacing a stretch of the pieces shows exactly if its own text changes. */
  lemma {:induction false} StretchShows(front: seq<string>, a: seq<string>, b: seq<string>, back: seq<string>)
    ensures Concat(front + a + back) == Concat(front + b + back) <==> Concat(a) == Concat(b)
  {
    ConcatAppend(front + a, back);
    ConcatAppend(front, a);
    ConcatAppend(front + b, back);
    ConcatAppend(front, b);
    Split(Concat(front) + Concat(a), Concat(back), Concat(front) + Concat(b), Concat(back));
    Split(Concat(front), Concat(a), Concat(front), Concat(b));
  }

  lemma {:induction false} ConcatOne(s: string)
    ensures Concat([s]) == s
  {
    ConcatLast([], s);
    assert [] + [s] == [s];
  }

  /** The fields in the order they are written. */
  lemma {:induction false} HashTextIs(r: ResolvedLink)
    ensures HashText(r) == r.uid + r.name + r.namespace + r.routeNamespace + r.frontendUser + Itoa(r.port)
                           + r.clusterName + r.nsServerAddr + Concat(r.pdAddresses)
                           + if r.tlsSecret.Some? then r.tlsSecret.value else ""
  {
    ConcatLast(Front(r) + r.pdAddresses, SecretName(r));
    ConcatAppend(Front(r), r.pdAddresses);
    FourParts([], r.uid, r.name, r.namespace, r.routeNamespace);
    var front := [r.uid, r.name, r.namespace, r.routeNamespace];
    assert [] + front == front;
    FourParts(front, r.frontendUser, Itoa(r.port), r.clusterName, r.nsServerAddr);
    assert Front(r) == front + [r.frontendUser, Itoa(r.port), r.clusterName, r.nsServerAddr];
  }

  lemma {:induction false} FourParts(parts: seq<string>, a: string, b: string, c: string, d: string)
    ensures Concat(parts + [a, b, c, d]) == Concat(parts) + a + b + c + d
    ensures parts == [] ==> Concat(parts + [a, b, c, d]) == a + b + c + d
  {
    ConcatLast(parts, a);
    ConcatLast(parts + [a], b);
    ConcatLast(parts + [a] + [b], c);
    ConcatLast(parts + [a] + [b] + [c], d);
    assert parts + [a] + [b] + [c] + [d] == parts + [a, b, c, d];
    assert "" + a == a;
  }

  /** Nothing but the pieces, one after the other. */
  lemma {:induction false} ConcatFirst(first: string, rest: seq<string>)
    ensures Concat([]) == "" && Concat([first] + rest) == first + Concat(rest)
  {
    ConcatAppend([first], rest);
    ConcatOne(first);
  }

  // ---------------------------------------------------------------- what the hash shows

  /** The fields of the two entries have pairwise equal lengths. */
  ghost predicate SameShape(a: ResolvedLink, b: ResolvedLink) {
    && SameLengths(Front(a), Front(b)) && SameLengths(a.pdAddresses, b.pdAddresses)
    && (a.tlsSecret.Some? <==> b.tlsSecret.Some?) && |SecretName(a)| == |SecretName(b)|
  }

  /** The two entries differ in nothing but their hash. */
  ghost predicate SameFields(a: ResolvedLink, b: ResolvedLink) {
    a == b.(hashed := a.hashed)
  }

  /** Between entries whose fields have equal lengths the hash shows every difference. */
  lemma {:induction false} EqualLengthsShow(a: ResolvedLink, b: ResolvedLink)
    requires SameShape(a, b)
    ensures HashText(a) == HashText(b) <==> SameFields(a, b)
  {
    var x, y := Front(a) + a.pdAddresses + [SecretName(a)], Front(b) + b.pdAddresses + [SecretName(b)];
    ConcatInjective(x, y);
    if x == y {
      FrontEqual(a, b);
      assert a.pdAddresses == x[8..|x| - 1] && b.pdAddresses == y[8..|y| - 1];
      assert SecretName(a) == x[|x| - 1] && SecretName(b) == y[|y| - 1];
    }
  }

  lemma {:induction false} FrontEqual(a: ResolvedLink, b: ResolvedLink)
    requires Front(a) + a.pdAddresses + [SecretName(a)] == Front(b) + b.pdAddresses + [SecretName(b)]
    ensures Front(a) == Front(b) && a.port == b.port
  {
    var x, y := Front(a) + a.pdAddresses + [SecretName(a)], Front(b) + b.pdAddresses + [SecretName(b)];
    assert Front(a) == x[..8] && Front(b) == y[..8];
    assert Front(a)[5] == Front(b)[5];
    ItoaDistinct(a.port, b.port);
  }

  /** Changing one piece in front of the addresses shows. */
  lemma {:induction false} FrontShows(r: ResolvedLink, e: ResolvedLink, i: nat)
    requires i < 8 && Front(e) == Front(r)[i := Front(e)[i]]
    requires e.pdAddresses == r.pdAddresses && e.tlsSecret == r.tlsSecret
    ensures HashText(e) == HashText(r) <==> Front(e)[i] == Front(r)[i]
  {
    var f, g := Front(r), Front(e);
    var back := f[i + 1..] + r.pdAddresses + [SecretName(r)];
    StretchShows(f[..i], [g[i]], [f[i]], back);
    ConcatOne(g[i]);
    ConcatOne(f[i]);
    assert f[..i] + [f[i]] + back == f + r.pdAddresses + [SecretName(r)];
    assert f[..i] + [g[i]] + back == g + r.pdAddresses + [SecretName(r)];
  }

  /** A change of one field alone shows, except that addresses only show as their concatenation
      and a missing secret looks like one without a name. */
  lemma {:induction false} OneFieldShows(r: ResolvedLink, s: string, port: int32, addrs: seq<string>,
          secret: Option<string>)
    ensures HashText(r.(uid := s)) == HashText(r) <==> s == r.uid
    ensures HashText(r.(name := s)) == HashText(r) <==> s == r.name
    ensures HashText(r.(namespace := s)) == HashText(r) <==> s == r.namespace
    ensures HashText(r.(routeNamespace := s)) == HashText(r) <==> s == r.routeNamespace
    ensures HashText(r.(frontendUser := s)) == HashText(r) <==> s == r.frontendUser
    ensures HashText(r.(port := port)) == HashText(r) <==> port == r.port
    ensures HashText(r.(clusterName := s)) == HashText(r) <==> s == r.clusterName
    ensures HashText(r.(nsServerAddr := s)) == HashText(r) <==> s == r.nsServerAddr
    ensures HashText(r.(pdAddresses := addrs)) == HashText(r) <==> Concat(addrs) == Concat(r.pdAddresses)
    ensures HashText(r.(tlsSecret := secret)) == HashText(r)
      <==> SecretName(r.(tlsSecret := secret)) == SecretName(r)
  {
    NamesShow(r, s);
    FrontShows(r, r.(frontendUser := s), 4);
    PortShows(r, port);
    FrontShows(r, r.(clusterName := s), 6);
    FrontShows(r, r.(nsServerAddr := s), 7);
    StretchShows(Front(r), addrs, r.pdAddresses, [SecretName(r)]);
    BackShows(r, secret);
  }

  lemma {:induction false} NamesShow(r: ResolvedLink, s: string)
    ensures HashText(r.(uid := s)) == HashText(r) <==> s == r.uid
    ensures HashText(r.(name := s)) == HashText(r) <==> s == r.name
    ensures HashText(r.(namespace := s)) == HashText(r) <==> s == r.namespace
    ensures HashText(r.(routeNamespace := s)) == HashText(r) <==> s == r.routeNamespace
  {
    FrontShows(r, r.(uid := s), 0);
    FrontShows(r, r.(name := s), 1);
    FrontShows(r, r.(namespace := s), 2);
    FrontShows(r, r.(routeNamespace := s), 3);
  }

  lemma {:induction false} PortShows(r: ResolvedLink, port: int32)
    ensures HashText(r.(port := port)) == HashText(r) <==> port == r.port
  {
    FrontShows(r, r.(port := port), 5);
    ItoaDistinct(r.port, port);
  }

  lemma {:induction false} BackShows(r: ResolvedLink, secret: Option<string>)
    ensures HashText(r.(tlsSecret := secret)) == HashText(r)
      <==> SecretName(r.(tlsSecret := secret)) == SecretName(r)
  {
    var e := r.(tlsSecret := secret);
    ConcatLast(Front(r) + r.pdAddresses, SecretName(e));
    ConcatLast(Front(r) + r.pdAddresses, SecretName(r));
    Split(Concat(Front(r) + r.pdAddresses), SecretName(e), Concat(Front(r) + r.pdAddresses), SecretName(r));
  }

  /** Three changes it does not show: digits that move from the user to the port, addresses that
      are split differently, and a secret without a name instead of none. */
  lemma {:induction false} HashAmbiguous(r: ResolvedLink)
    ensures HashText(r.(frontendUser := "u1", port := 1)) == HashText(r.(frontendUser := "u", port := 11))
    ensures HashText(r.(pdAddresses := ["a", "b"])) == HashText(r.(pdAddresses := ["ab"]))
    ensures HashText(r.(tlsSecret := Some(""))) == HashText(r.(tlsSecret := None))
  {
    UserAndPort(r);
    ConcatOne("a");
    ConcatOne("ab");
    ConcatLast(["a"], "b");
    assert ["a"] + ["b"] == ["a", "b"];
    OneFieldShows(r.(pdAddresses := ["ab"]), "", 0, ["a", "b"], None);
    BackShows(r.(tlsSecret := None), Some(""));
  }

  /** The text around the user and the port. */
  lemma {:induction false} TextAround(r: ResolvedLink)
    ensures var front, back := Front(r)[..4], Front(r)[6..] + r.pdAddresses + [SecretName(r)];
      HashText(r) == Concat(front) + (r.frontendUser + Itoa(r.port)) + Concat(back)
  {
    var front, back := Front(r)[..4], Front(r)[6..] + r.pdAddresses + [SecretName(r)];
    var mid := [r.frontendUser] + [Itoa(r.port)];
    assert Front(r) + r.pdAddresses + [SecretName(r)] == front + mid + back;
    ConcatAppend(front + mid, back);
    ConcatAppend(front, mid);
    ConcatOne(r.frontendUser);
    ConcatLast([r.frontendUser], Itoa(r.port));
  }

  lemma {:induction false} UserAndPort(r: ResolvedLink)
    ensures HashText(r.(frontendUser := "u1", port := 1)) == HashText(r.(frontendUser := "u", port := 11))
  {
    var a, b := r.(frontendUser := "u1", port := 1), r.(frontendUser := "u", port := 11);
    TextAround(a);
    TextAround(b);
    assert a.frontendUser + Itoa(a.port) == "u11" == b.frontendUser + Itoa(b.port);
    assert Front(a)[..4] == Front(b)[..4] && Front(a)[6..] == Front(b)[6..];
  }
}
