/** CRD names and the condition types derived from them, for ASCII names. */
module Naming {
  import opened Common

  function UpperChar(c: char): char {
    if 'a' <= c <= 'z' then c - 'a' + 'A' else c
  }

  function LowerChar(c: char): char {
    if 'A' <= c <= 'Z' then c - 'A' + 'a' else c
  }

  function Upper(s: string): (u: string)
    ensures |u| == |s|
  {
    seq(|s|, i requires 0 <= i < |s| => UpperChar(s[i]))
  }

  function Lower(s: string): (l: string)
    ensures |l| == |s|
  {
    seq(|s|, i requires 0 <= i < |s| => LowerChar(s[i]))
  }

  predicate NoCapitals(s: string) {
    forall i :: 0 <= i < |s| ==> !('A' <= s[i] <= 'Z')
  }

  const KNOWN_PREFIXES: seq<string> := ["http", "grpc", "tcp", "tls", "dns", "api", "crd"]

  predicate HasPrefix(s: string, prefix: string) {
    |prefix| <= |s| && s[..|prefix|] == prefix
  }

  /** The first known prefix `s` starts with, as the loop finds it. */
  function FirstPrefix(prefixes: seq<string>, s: string): (p: Option<string>)
    ensures p.Some? ==> p.value in prefixes && HasPrefix(s, p.value)
    ensures p.None? ==> forall q :: q in prefixes ==> !HasPrefix(s, q)
  {
    if prefixes == [] then None
    else if HasPrefix(s, prefixes[0]) then Some(prefixes[0])
    else FirstPrefix(prefixes[1..], s)
  }

  /** toPascalCase with the known abbreviations as a parameter. */
  function PascalCase(prefixes: seq<string>, s: string): string
    requires forall p :: p in prefixes ==> p != ""
    decreases |s|
  {
    if s == "" then s
    else
      match FirstPrefix(prefixes, s)
      case Some(p) =>
        if s[|p|..] == "" then Upper(p) else Upper(p) + PascalCase(prefixes, s[|p|..])
      case None => [UpperChar(s[0])] + s[1..]
  }

  function ToPascalCase(s: string): string {
    PascalCase(KNOWN_PREFIXES, s)
  }

  /** The part before the first dot, and whether there is a dot. */
  function Cut(s: string): (string, bool) {
    if s == "" then ("", false)
    else if s[0] == '.' then ("", true)
    else var (before, found) := Cut(s[1..]); ([s[0]] + before, found)
  }

  function Plural(crdName: string): string {
    Cut(crdName).0
  }

  function ConditionType(crdName: string): string {
    ToPascalCase(Plural(crdName)) + "Available"
  }

  /** strings.IndexByte for '.': -1 when there is none. */
  function DotIndex(s: string): (i: int)
    ensures -1 <= i < |s|
    ensures i >= 0 ==> s[i] == '.'
  {
    if s == "" then -1
    else if s[0] == '.' then 0
    else
      var i := DotIndex(s[1..]);
      if i < 0 then -1 else i + 1
  }

  predicate ValidCRDName(name: string) {
    var i := DotIndex(name);
    !(i < 1 || i >= |name| - 1)
  }

  /** A valid name is a non-empty plural without dots, a dot, and a non-empty group. */
  lemma {:induction false} CutAtDot(s: string)
    ensures var i := DotIndex(s);
            if i < 0 then Cut(s) == (s, false) && '.' !in s
            else Cut(s) == (s[..i], true) && '.' !in s[..i]
  {
    if s != "" && s[0] != '.' {
      CutAtDot(s[1..]);
      assert s == [s[0]] + s[1..];
      var i := DotIndex(s[1..]);
      if i >= 0 {
        assert s[..i + 1] == [s[0]] + s[1..][..i];
      }
    }
  }

  lemma {:induction false} DotOf(plural: string, group: string)
    requires '.' !in plural
    ensures DotIndex(plural + "." + group) == |plural|
  {
    var s := plural + "." + group;
    if plural == "" {
      assert s[0] == '.';
    } else {
      assert s[0] == plural[0] && s[1..] == plural[1..] + "." + group;
      DotOf(plural[1..], group);
    }
  }

  lemma ValidNameShape(name: string)
    ensures ValidCRDName(name) <==>
            exists plural, group :: name == plural + "." + group && plural != "" && group != "" && '.' !in plural
    ensures ValidCRDName(name) ==> Plural(name) != "" && '.' !in Plural(name)
  {
    CutAtDot(name);
    var i := DotIndex(name);
    if ValidCRDName(name) {
      var plural, group := name[..i], name[i + 1..];
      assert name == plural + "." + group;
    }
    if plural, group :| name == plural + "." + group && plural != "" && group != "" && '.' !in plural {
      DotOf(plural, group);
    }
  }

  /** The plural is what comes before the first dot, whatever comes after it. */
  lemma PluralIsBeforeDot(plural: string, group: string)
    requires '.' !in plural
    ensures Plural(plural + "." + group) == plural
  {
    DotOf(plural, group);
    CutAtDot(plural + "." + group);
    assert (plural + "." + group)[..|plural|] == plural;
  }

  // ----- the round trip

  lemma LowerOfUpper(s: string)
    ensures Lower(Upper(s)) == Lower(s)
  {
  }

  lemma LowerConcat(a: string, b: string)
    ensures Lower(a + b) == Lower(a) + Lower(b)
  {
  }

  /** Whatever the abbreviations and the order they are tried in, PascalCase changes nothing but case. */
  lemma {:induction false} PascalCaseChangesOnlyCase(prefixes: seq<string>, s: string)
    requires forall p :: p in prefixes ==> p != ""
    ensures Lower(PascalCase(prefixes, s)) == Lower(s)
    decreases |s|
  {
    if s != "" {
      match FirstPrefix(prefixes, s)
      case Some(p) =>
        var rest := s[|p|..];
        assert s == p + rest;
        LowerConcat(p, rest);
        LowerOfUpper(p);
        if rest == "" {
          assert p + rest == p;
        } else {
          PascalCaseChangesOnlyCase(prefixes, rest);
          LowerConcat(Upper(p), PascalCase(prefixes, rest));
        }
      case None =>
        assert s == [s[0]] + s[1..];
        LowerConcat([s[0]], s[1..]);
        LowerConcat([UpperChar(s[0])], s[1..]);
        LowerOfUpper([s[0]]);
        assert Upper([s[0]]) == [UpperChar(s[0])];
    }
  }

  /** How many characters the known abbreviations at the start take up. */
  function AbbreviatedLength(prefixes: seq<string>, s: string): (n: nat)
    requires forall p :: p in prefixes ==> p != ""
    ensures n <= |s|
    decreases |s|
  {
    if s == "" then 0
    else
      match FirstPrefix(prefixes, s)
      case Some(p) => |p| + AbbreviatedLength(prefixes, s[|p|..])
      case None => 0
  }

  /** `s` with its first `n` characters and the one after them in upper case. */
  function Capitalised(s: string, n: nat): string
    requires n <= |s|
  {
    Upper(s[..n]) + if n == |s| then "" else [UpperChar(s[n])] + s[n + 1..]
  }

  lemma CapitalisedAfter(p: string, rest: string, m: nat)
    requires m <= |rest|
    ensures Capitalised(p + rest, |p| + m) == Upper(p) + Capitalised(rest, m)
  {
    var s := p + rest;
    assert s[..|p| + m] == p + rest[..m];
    assert Upper(p + rest[..m]) == Upper(p) + Upper(rest[..m]);
    if m < |rest| {
      assert s[|p| + m] == rest[m] && s[|p| + m + 1..] == rest[m + 1..];
    }
  }

  lemma ShapeAfterPrefix(prefixes: seq<string>, s: string, p: string, m: nat)
    requires forall q :: q in prefixes ==> q != ""
    requires s != "" && FirstPrefix(prefixes, s) == Some(p)
    requires m <= |s[|p|..]| && PascalCase(prefixes, s[|p|..]) == Capitalised(s[|p|..], m)
    ensures PascalCase(prefixes, s) == Capitalised(s, |p| + m)
  {
    var rest := s[|p|..];
    assert s == p + rest;
    CapitalisedAfter(p, rest, m);
    if rest == "" {
      assert Upper(p) + Capitalised(rest, m) == Upper(p);
    }
  }

  lemma ShapeWithoutPrefix(prefixes: seq<string>, s: string)
    requires forall q :: q in prefixes ==> q != ""
    requires s == "" || FirstPrefix(prefixes, s).None?
    ensures AbbreviatedLength(prefixes, s) == 0 && PascalCase(prefixes, s) == Capitalised(s, 0)
  {
    assert Upper(s[..0]) == "";
  }

  /** Exactly the leading abbreviations and the character after them are put in upper case. */
  lemma {:induction false} PascalCaseShape(prefixes: seq<string>, s: string)
    requires forall p :: p in prefixes ==> p != ""
    ensures PascalCase(prefixes, s) == Capitalised(s, AbbreviatedLength(prefixes, s))
    decreases |s|
  {
    if s == "" || FirstPrefix(prefixes, s).None? {
      ShapeWithoutPrefix(prefixes, s);
    } else {
      var p := FirstPrefix(prefixes, s).value;
      var m := AbbreviatedLength(prefixes, s[|p|..]);
      PascalCaseShape(prefixes, s[|p|..]);
      ShapeAfterPrefix(prefixes, s, p, m);
      assert AbbreviatedLength(prefixes, s) == |p| + m;
    }
  }

  predicate PrefixFree(prefixes: seq<string>) {
    forall p, q :: p in prefixes && q in prefixes && HasPrefix(p, q) ==> p == q
  }

  lemma SamePrefixFound(a: seq<string>, b: seq<string>, s: string)
    requires (forall p :: p in a <==> p in b) && PrefixFree(a)
    ensures FirstPrefix(a, s) == FirstPrefix(b, s)
  {
    match (FirstPrefix(a, s), FirstPrefix(b, s))
    case (Some(p), Some(q)) =>
      if |q| <= |p| {
        assert p[..|q|] == s[..|p|][..|q|] == s[..|q|];
      } else {
        assert q[..|p|] == s[..|q|][..|p|] == s[..|p|];
      }
    case _ =>
  }

  /** When no abbreviation starts with another one, the order in which they are tried does not matter. */
  lemma {:induction false} PrefixOrderDoesNotMatter(a: seq<string>, b: seq<string>, s: string)
    requires (forall p :: p in a <==> p in b) && PrefixFree(a) && "" !in a
    ensures PascalCase(a, s) == PascalCase(b, s)
    decreases |s|
  {
    if s != "" {
      SamePrefixFound(a, b, s);
      if FirstPrefix(a, s).Some? && s[|FirstPrefix(a, s).value|..] != "" {
        PrefixOrderDoesNotMatter(a, b, s[|FirstPrefix(a, s).value|..]);
      }
    }
  }

  lemma KnownPrefixesAreFree()
    ensures PrefixFree(KNOWN_PREFIXES) && "" !in KNOWN_PREFIXES
  {
    forall p, q | p in KNOWN_PREFIXES && q in KNOWN_PREFIXES && HasPrefix(p, q) ensures p == q {
      assert p == "http" || p == "grpc" || p == "tcp" || p == "tls" || p == "dns" || p == "api" || p == "crd";
      assert q == "http" || q == "grpc" || q == "tcp" || q == "tls" || q == "dns" || q == "api" || q == "crd";
      assert p[..|q|][0] == q[0] && p[..|q|][1] == q[1];
      assert p[0] == q[0] && p[1] == q[1];
    }
  }

  /** The known abbreviations can be tried in any order. */
  lemma KnownPrefixesInAnyOrder(order: seq<string>, s: string)
    requires forall p :: p in order <==> p in KNOWN_PREFIXES
    ensures "" !in order && PascalCase(order, s) == ToPascalCase(s)
  {
    KnownPrefixesAreFree();
    PrefixOrderDoesNotMatter(KNOWN_PREFIXES, order, s);
  }

  lemma LowerIsIdentity(s: string)
    ensures Lower(s) == s <==> NoCapitals(s)
  {
    if i :| 0 <= i < |s| && 'A' <= s[i] <= 'Z' {
      assert Lower(s)[i] != s[i];
    }
    if NoCapitals(s) {
      assert forall i :: 0 <= i < |s| ==> Lower(s)[i] == s[i];
    }
  }

  /** The round trip works exactly for the words without capitals, which all CRD plurals are. */
  lemma PascalCaseRoundTrip(prefixes: seq<string>, s: string)
    requires forall p :: p in prefixes ==> p != ""
    ensures Lower(PascalCase(prefixes, s)) == s <==> NoCapitals(s)
  {
    PascalCaseChangesOnlyCase(prefixes, s);
    LowerIsIdentity(s);
  }

  /** The character PascalCase has where the word has its `i`th. */
  function InPascalCase(prefixes: seq<string>, s: string, i: nat): char
    requires i < |s| && forall p :: p in prefixes ==> p != ""
  {
    if i <= AbbreviatedLength(prefixes, s) then UpperChar(s[i]) else s[i]
  }

  /** The words differ at most in the case of characters that PascalCase puts in upper case. */
  predicate SameInPascalCase(prefixes: seq<string>, s: string, t: string)
    requires forall p :: p in prefixes ==> p != ""
  {
    |s| == |t| && forall i :: 0 <= i < |s| ==> InPascalCase(prefixes, s, i) == InPascalCase(prefixes, t, i)
  }

  lemma CapitalisedChars(s: string, n: nat)
    requires n <= |s|
    ensures |Capitalised(s, n)| == |s|
    ensures forall i :: 0 <= i < |s| ==> Capitalised(s, n)[i] == if i <= n then UpperChar(s[i]) else s[i]
  {
  }

  lemma PascalCaseChars(prefixes: seq<string>, s: string)
    requires forall p :: p in prefixes ==> p != ""
    ensures |PascalCase(prefixes, s)| == |s|
    ensures forall i :: 0 <= i < |s| ==> PascalCase(prefixes, s)[i] == InPascalCase(prefixes, s, i)
  {
    PascalCaseShape(prefixes, s);
    CapitalisedChars(s, AbbreviatedLength(prefixes, s));
  }

  /** Words agree in PascalCase only if they are the same but for case. */
  lemma AgreementIsUpToCase(prefixes: seq<string>, s: string, t: string)
    requires forall p :: p in prefixes ==> p != ""
    requires PascalCase(prefixes, s) == PascalCase(prefixes, t)
    ensures Lower(s) == Lower(t)
    ensures NoCapitals(s) && NoCapitals(t) ==> s == t
  {
    PascalCaseChangesOnlyCase(prefixes, s);
    PascalCaseChangesOnlyCase(prefixes, t);
    LowerIsIdentity(s);
    LowerIsIdentity(t);
  }

  lemma PascalCaseAgrees(prefixes: seq<string>, s: string, t: string)
    requires forall p :: p in prefixes ==> p != ""
    ensures PascalCase(prefixes, s) == PascalCase(prefixes, t) <==> SameInPascalCase(prefixes, s, t)
  {
    PascalCaseChars(prefixes, s);
    PascalCaseChars(prefixes, t);
    var x, y := PascalCase(prefixes, s), PascalCase(prefixes, t);
    if |s| == |t| {
      forall i | 0 <= i < |s|
        ensures x[i] == y[i] <==> InPascalCase(prefixes, s, i) == InPascalCase(prefixes, t, i)
      {
      }
      assert x == y <==> forall i :: 0 <= i < |x| ==> x[i] == y[i];
    }
  }

  lemma SameBeforeSuffix(x: string, y: string, suffix: string)
    ensures x + suffix == y + suffix <==> x == y
  {
    if x + suffix == y + suffix {
      assert |x| == |y|;
      assert (x + suffix)[..|x|] == x && (y + suffix)[..|y|] == y;
    }
  }

  /** The plurals differ at most in the case of characters that the condition type puts in upper case. */
  predicate SameInType(p: string, q: string) {
    SameInPascalCase(KNOWN_PREFIXES, p, q)
  }

  /**
   Derived condition types agree exactly when the plurals differ at most in the case of their
   leading abbreviations and of the character after them; the group does not matter. So they agree
   only for plurals that are the same but for case, and of plurals without capitals only for equal
   ones.
   */
  lemma ConditionTypeIdentifiesPlural(a: string, b: string)
    ensures ConditionType(a) == ConditionType(b) <==> SameInType(Plural(a), Plural(b))
    ensures ConditionType(a) == ConditionType(b) ==> Lower(Plural(a)) == Lower(Plural(b))
    ensures NoCapitals(Plural(a)) && NoCapitals(Plural(b)) ==>
              (ConditionType(a) == ConditionType(b) <==> Plural(a) == Plural(b))
  {
    var prefixes := KNOWN_PREFIXES;
    PascalCaseAgrees(prefixes, Plural(a), Plural(b));
    if ToPascalCase(Plural(a)) == ToPascalCase(Plural(b)) {
      AgreementIsUpToCase(prefixes, Plural(a), Plural(b));
    }
    SameBeforeSuffix(ToPascalCase(Plural(a)), ToPascalCase(Plural(b)), "Available");
  }

  // ----- the derived type, character by character

  /** `s` starts with one of the abbreviations that the source lists. */
  predicate StartsAbbreviated(s: string) {
    || HasPrefix(s, "http") || HasPrefix(s, "grpc") || HasPrefix(s, "tcp") || HasPrefix(s, "tls")
    || HasPrefix(s, "dns") || HasPrefix(s, "api") || HasPrefix(s, "crd")
  }

  /** `s` consists of such abbreviations, one after the other. */
  predicate MadeOfAbbreviations(s: string)
    decreases |s|
  {
    || s == ""
    || ((HasPrefix(s, "http") || HasPrefix(s, "grpc")) && MadeOfAbbreviations(s[4..]))
    || ((HasPrefix(s, "tcp") || HasPrefix(s, "tls") || HasPrefix(s, "dns") || HasPrefix(s, "api")
         || HasPrefix(s, "crd")) && MadeOfAbbreviations(s[3..]))
  }

  lemma KnownPrefixes(p: string)
    ensures p in KNOWN_PREFIXES <==>
            p == "http" || p == "grpc" || p == "tcp" || p == "tls" || p == "dns" || p == "api" || p == "crd"
  {
  }

  lemma NoneStarts(s: string)
    ensures StartsAbbreviated(s) <==> exists p :: p in KNOWN_PREFIXES && HasPrefix(s, p)
  {
    KnownPrefixes("http");
    KnownPrefixes("grpc");
    KnownPrefixes("tcp");
    KnownPrefixes("tls");
    KnownPrefixes("dns");
    KnownPrefixes("api");
    KnownPrefixes("crd");
    if p :| p in KNOWN_PREFIXES && HasPrefix(s, p) {
      KnownPrefixes(p);
    }
  }

  lemma OneMore(p: string, rest: string)
    requires p in KNOWN_PREFIXES && MadeOfAbbreviations(rest)
    ensures MadeOfAbbreviations(p + rest)
  {
    KnownPrefixes(p);
    var s := p + rest;
    assert s[..|p|] == p && s[|p|..] == rest;
    assert HasPrefix(s, p);
  }

  /** What AbbreviatedLength counts: abbreviations up to there, and none after. */
  lemma {:induction false} LeadingAbbreviations(prefixes: seq<string>, s: string)
    requires forall p :: p in prefixes ==> p != ""
    requires forall p :: p in prefixes <==> p in KNOWN_PREFIXES
    ensures var n := AbbreviatedLength(prefixes, s); MadeOfAbbreviations(s[..n]) && !StartsAbbreviated(s[n..])
    decreases |s|
  {
    NoneStarts(s);
    if s != "" && FirstPrefix(prefixes, s).Some? {
      var p := FirstPrefix(prefixes, s).value;
      var rest := s[|p|..];
      LeadingAbbreviations(prefixes, rest);
      var m := AbbreviatedLength(prefixes, rest);
      OneMore(p, rest[..m]);
      assert s[..|p| + m] == p + rest[..m] && s[|p| + m..] == rest[m..];
    }
  }

  /**
   A condition type of this plural: its leading abbreviations and the character after them in upper
   case, the rest as it is, and Available at the end.
   */
  ghost predicate IsTypeOf(t: string, plural: string) {
    exists n: nat :: LeadEnds(plural, n) && IsTypeWith(t, plural, n)
  }

  predicate LeadEnds(plural: string, n: nat) {
    n <= |plural| && MadeOfAbbreviations(plural[..n]) && !StartsAbbreviated(plural[n..])
  }

  predicate IsTypeWith(t: string, plural: string, n: nat) {
    && |t| == |plural| + |"Available"| && t[|plural|..] == "Available"
    && forall i :: 0 <= i < |plural| ==>
                     t[i] == if i <= n && 'a' <= plural[i] <= 'z' then plural[i] - 'a' + 'A' else plural[i]
  }

  lemma FirstAbbreviation(s: string, n: nat) returns (p: string)
    requires 0 < n <= |s| && MadeOfAbbreviations(s[..n])
    ensures p in KNOWN_PREFIXES && |p| <= n && HasPrefix(s, p) && MadeOfAbbreviations(s[|p|..][..n - |p|])
  {
    var lead := s[..n];
    p := if HasPrefix(lead, "http") && MadeOfAbbreviations(lead[4..]) then "http"
         else if HasPrefix(lead, "grpc") && MadeOfAbbreviations(lead[4..]) then "grpc"
         else if HasPrefix(lead, "tcp") then "tcp"
         else if HasPrefix(lead, "tls") then "tls"
         else if HasPrefix(lead, "dns") then "dns"
         else if HasPrefix(lead, "api") then "api"
         else "crd";
    KnownPrefixes(p);
    assert lead[|p|..] == s[|p|..][..n - |p|];
    assert s[..|p|] == lead[..|p|];
  }

  lemma LeadAfter(s: string, p: string, n: nat)
    requires LeadEnds(s, n) && p in KNOWN_PREFIXES && |p| <= n && MadeOfAbbreviations(s[|p|..][..n - |p|])
    ensures LeadEnds(s[|p|..], n - |p|) && |s[|p|..]| < |s|
  {
    KnownPrefixes(p);
    assert s[|p|..][n - |p|..] == s[n..];
  }

  /** There is one place where the leading abbreviations end. */
  lemma {:induction false} LeadIsUnique(s: string, m: nat, n: nat)
    requires LeadEnds(s, m) && LeadEnds(s, n) && m <= n
    ensures m == n
    decreases |s|
  {
    assert s[0..] == s;
    NoneStarts(s);
    if 0 < n {
      var q := FirstAbbreviation(s, n);
      if m > 0 {
        var p := FirstAbbreviation(s, m);
        PrefixesOfOne(s, p, q);
        LeadAfter(s, p, m);
        LeadAfter(s, p, n);
        LeadIsUnique(s[|p|..], m - |p|, n - |p|);
      }
    }
  }

  lemma PrefixesNest(s: string, p: string, q: string)
    requires HasPrefix(s, p) && HasPrefix(s, q) && |q| <= |p|
    ensures HasPrefix(p, q)
  {
    assert p[..|q|] == s[..|p|][..|q|] == s[..|q|];
  }

  lemma PrefixesOfOne(s: string, p: string, q: string)
    requires p in KNOWN_PREFIXES && q in KNOWN_PREFIXES && HasPrefix(s, p) && HasPrefix(s, q)
    ensures p == q
  {
    KnownPrefixesAreFree();
    if |q| <= |p| {
      PrefixesNest(s, p, q);
    } else {
      PrefixesNest(s, q, p);
    }
  }

  /** The derived type is the one condition type of the name's plural. */
  lemma ConditionTypeIsTypeOf(crdName: string)
    ensures forall t :: IsTypeOf(t, Plural(crdName)) <==> t == ConditionType(crdName)
  {
    var prefixes, plural := KNOWN_PREFIXES, Plural(crdName);
    LeadingAbbreviations(prefixes, plural);
    PascalCaseChars(prefixes, plural);
    var n := AbbreviatedLength(prefixes, plural);
    assert LeadEnds(plural, n);
    TypeFromWord(ToPascalCase(plural), plural, n);
    forall t | IsTypeOf(t, plural) ensures t == ConditionType(crdName) {
      var m: nat :| LeadEnds(plural, m) && IsTypeWith(t, plural, m);
      LeadIsUnique(plural, if m <= n then m else n, if m <= n then n else m);
      SameTypeWith(t, ConditionType(crdName), plural, n);
    }
  }

  lemma SameTypeWith(t: string, u: string, plural: string, n: nat)
    requires IsTypeWith(t, plural, n) && IsTypeWith(u, plural, n)
    ensures t == u
  {
    assert t == t[..|plural|] + t[|plural|..] && u == u[..|plural|] + u[|plural|..];
    assert t[..|plural|] == u[..|plural|];
  }

  lemma TypeFromWord(word: string, plural: string, n: nat)
    requires |word| == |plural|
    requires forall i :: 0 <= i < |plural| ==> word[i] == if i <= n then UpperChar(plural[i]) else plural[i]
    ensures IsTypeWith(word + "Available", plural, n)
  {
    var t := word + "Available";
    assert t[|plural|..] == "Available";
    assert forall i :: 0 <= i < |plural| ==> t[i] == word[i];
  }
}
