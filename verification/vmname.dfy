/**
 VM names and how they are attributed back to a scale set.
 Models bridge/vm.go and the prefix test of bridge/stateview.go.
 */
module VmName {

  const VM_NAME_PREFIX := "gha-orchard-"
  const MAX_NAME := 63

  /** The first eight characters of a UUID: lower-case hex. */
  type Suffix = s: string | |s| == 8 && forall c :: c in s ==> IsHex(c) witness "00000000"

  predicate IsHex(c: char) {
    '0' <= c <= '9' || 'a' <= c <= 'f'
  }

  predicate IsSafe(c: char) {
    'a' <= c <= 'z' || '0' <= c <= '9' || c == '-'
  }

  /** strings.ToLower on one rune.  Outside ASCII only two runes land in [a-z]. */
  function Lower(c: char): char {
    if 'A' <= c <= 'Z' then (c as int + 32) as char
    else if c == '\U{0130}' then 'i'
    else if c == '\U{212A}' then 'k'
    else c
  }

  function CleanChars(s: string): string {
    if |s| == 0 then ""
    else
      var c := Lower(s[0]);
      [if IsSafe(c) then c else '-'] + CleanChars(s[1..])
  }

  function TrimLeft(s: string): string {
    if |s| > 0 && s[0] == '-' then TrimLeft(s[1..]) else s
  }

  function TrimRight(s: string): string {
    if |s| > 0 && s[|s| - 1] == '-' then TrimRight(s[..|s| - 1]) else s
  }

  function Sanitize(scaleSet: string): string {
    TrimRight(TrimLeft(CleanChars(scaleSet)))
  }

  function PrefixFor(scaleSet: string): string {
    VM_NAME_PREFIX + Sanitize(scaleSet) + "-"
  }

  predicate IsManaged(name: string) {
    VM_NAME_PREFIX <= name
  }

  function Truncate(name: string): string {
    if |name| > MAX_NAME then TrimRight(name[..MAX_NAME]) else name
  }

  function NameFor(scaleSet: string, short: Suffix): string {
    Truncate(PrefixFor(scaleSet) + short)
  }

  /** The test ManagedVMsForScaleSet applies: the prefix, then a hyphen-free remainder. */
  predicate AttributedTo(name: string, scaleSet: string) {
    PrefixThenHyphenFree(PrefixFor(scaleSet), name)
  }

  predicate PrefixThenHyphenFree(prefix: string, name: string) {
    prefix <= name && '-' !in name[|prefix|..]
  }

  // ---- What the names promise -------------------------------------------------

  lemma {:induction false} CleanCharsSafe(s: string)
    ensures |CleanChars(s)| == |s| && forall c :: c in CleanChars(s) ==> IsSafe(c)
  {
    if |s| == 0 {
    } else {
      CleanCharsSafe(s[1..]);
    }
  }

  lemma {:induction false} TrimLeftShape(s: string)
    ensures var r := TrimLeft(s);
      |r| <= |s| && r == s[|s| - |r|..] && (r != "" ==> r[0] != '-')
  {
    if |s| > 0 && s[0] == '-' {
      TrimLeftShape(s[1..]);
    }
  }

  lemma {:induction false} TrimRightShape(s: string)
    ensures var r := TrimRight(s);
      r <= s && (r != "" ==> r[|r| - 1] != '-') && forall i :: |r| <= i < |s| ==> s[i] == '-'
  {
    if |s| > 0 && s[|s| - 1] == '-' {
      TrimRightShape(s[..|s| - 1]);
    }
  }

  lemma TruncateShape(name: string)
    ensures var r := Truncate(name);
      && r <= name && |r| <= MAX_NAME
      && (|name| <= MAX_NAME ==> r == name)
      && (|name| > MAX_NAME ==> forall i :: |r| <= i < MAX_NAME ==> name[i] == '-')
      && (|name| > MAX_NAME && r != "" ==> r[|r| - 1] != '-')
  {
    if |name| > MAX_NAME {
      TrimRightShape(name[..MAX_NAME]);
    }
  }

  /** Safe characters only, and no hyphen at either end. */
  ghost predicate Canonical(s: string) {
    && (forall c :: c in s ==> IsSafe(c))
    && (s != "" ==> s[0] != '-' && s[|s| - 1] != '-')
  }

  lemma SanitizeCanonical(scaleSet: string)
    ensures Canonical(Sanitize(scaleSet))
  {
    var cleaned := CleanChars(scaleSet);
    var left := TrimLeft(cleaned);
    var r := TrimRight(left);
    CleanCharsSafe(scaleSet);
    TrimLeftShape(cleaned);
    TrimRightShape(left);
    forall c | c in r
      ensures IsSafe(c)
    {
      assert c in left;
      assert c in cleaned;
    }
    if r != "" {
      assert left[0] == r[0];
    }
  }

  lemma {:induction false} CleanCharsOfSafe(s: string)
    requires forall c :: c in s ==> IsSafe(c)
    ensures CleanChars(s) == s
  {
    if |s| == 0 {
    } else {
      assert forall c :: c in s[1..] ==> c in s;
      CleanCharsOfSafe(s[1..]);
      assert IsSafe(s[0]) && Lower(s[0]) == s[0];
      assert s == [s[0]] + s[1..];
    }
  }

  lemma TrimOfCanonical(s: string)
    requires Canonical(s)
    ensures TrimRight(TrimLeft(s)) == s
  {
  }

  /** Sanitizing is idempotent, so a sanitized name is its own canonical form. */
  lemma SanitizeOfCanonical(s: string)
    requires Canonical(s)
    ensures Sanitize(s) == s
  {
    CleanCharsOfSafe(s);
    TrimOfCanonical(s);
  }

  lemma TruncateKeeps(full: string, k: nat)
    requires k < |full| && k < MAX_NAME && full[k] != '-' && full[|full| - 1] != '-'
    ensures k < |Truncate(full)| && Truncate(full)[|Truncate(full)| - 1] != '-'
  {
    var r := Truncate(full);
    TruncateShape(full);
    assert r == full[..|r|];
  }

  /** Every generated name is managed, fits a Kubernetes label, and does not end in a hyphen. */
  lemma GeneratedNameShape(scaleSet: string, short: Suffix)
    ensures IsManaged(NameFor(scaleSet, short))
    ensures |NameFor(scaleSet, short)| <= MAX_NAME
    ensures Canonical(NameFor(scaleSet, short))
  {
    SanitizeCanonical(scaleSet);
    ComposedShape(Sanitize(scaleSet), short);
  }

  lemma ComposedShape(s: string, short: Suffix)
    requires Canonical(s)
    ensures var name := Truncate(VM_NAME_PREFIX + s + "-" + short);
      IsManaged(name) && |name| <= MAX_NAME && Canonical(name)
  {
    var full := VM_NAME_PREFIX + s + "-" + short;
    PrefixSafe();
    assert full[|full| - 1] == short[7] && IsHex(short[7]);
    if s == "" {
      assert full[13] == short[0] && IsHex(short[0]);
      TruncateKeeps(full, 13);
    } else {
      assert full[12] == s[0];
      TruncateKeeps(full, 12);
    }
    var name := Truncate(full);
    TruncateShape(full);
    assert VM_NAME_PREFIX == full[..12];
    assert forall c :: c in full ==> IsSafe(c);
    assert forall i :: 0 <= i < |name| ==> name[i] == full[i];
  }

  lemma PrefixSafe()
    ensures |VM_NAME_PREFIX| == 12 && VM_NAME_PREFIX[0] != '-'
    ensures forall c :: c in VM_NAME_PREFIX ==> IsSafe(c)
  {
  }

  lemma LongerPrefixLeavesHyphen(name: string, p: string, q: string)
    requires p <= name && q <= name && |p| < |q| && q[|q| - 1] == '-'
    ensures '-' in name[|p|..]
  {
    assert name[|p|..][|q| - 1 - |p|] == '-';
  }

  lemma PrefixIsUnique(base: string, s: string, t: string, name: string)
    requires PrefixThenHyphenFree(base + s + "-", name)
    requires PrefixThenHyphenFree(base + t + "-", name)
    ensures s == t
  {
    var ps, pt := base + s + "-", base + t + "-";
    if |ps| < |pt| {
      LongerPrefixLeavesHyphen(name, ps, pt);
    } else if |pt| < |ps| {
      LongerPrefixLeavesHyphen(name, pt, ps);
    }
    assert ps == name[..|ps|] == pt;
    assert s == ps[|base|..|ps| - 1];
    assert t == pt[|base|..|pt| - 1];
  }

  /** A VM, whoever created it, counts for at most one sanitized scale-set name. */
  lemma AttributionIsUnique(name: string, s: string, t: string)
    requires AttributedTo(name, s) && AttributedTo(name, t)
    ensures Sanitize(s) == Sanitize(t)
  {
    PrefixIsUnique(VM_NAME_PREFIX, Sanitize(s), Sanitize(t), name);
  }

  lemma ComposedKeepsPrefix(prefix: string, short: Suffix)
    requires |prefix| <= MAX_NAME - 1
    ensures PrefixThenHyphenFree(prefix, Truncate(prefix + short))
  {
    var full := prefix + short;
    var name := Truncate(full);
    TruncateShape(full);
    assert forall i :: |prefix| <= i < |full| ==> full[i] == short[i - |prefix|] && IsHex(short[i - |prefix|]);
    if |full| > MAX_NAME {
      assert full[MAX_NAME - 1] != '-';
      assert |name| == MAX_NAME;
    }
    assert forall i :: 0 <= i < |name| ==> name[i] == full[i];
  }

  /** A scale set recognises its own VMs exactly when its sanitized name fits in 49 characters. */
  lemma OwnNameRecognised(s: string, short: Suffix)
    ensures AttributedTo(NameFor(s, short), s) <==> |Sanitize(s)| <= 49
  {
    if |Sanitize(s)| <= 49 {
      ComposedKeepsPrefix(PrefixFor(s), short);
    } else {
      assert |PrefixFor(s)| == |Sanitize(s)| + 13;
      TruncateShape(PrefixFor(s) + short);
      assert |Sanitize(s)| == 50 ==> (PrefixFor(s) + short)[MAX_NAME - 1] == '-';
    }
  }

  /** Within that length the round trip is exact: made for `s`, attributed to `t`, iff `s` and `t` sanitize alike. */
  lemma AttributionRoundTrip(s: string, t: string, short: Suffix)
    requires |Sanitize(s)| <= 49
    ensures AttributedTo(NameFor(s, short), t) <==> Sanitize(s) == Sanitize(t)
  {
    OwnNameRecognised(s, short);
    if AttributedTo(NameFor(s, short), t) {
      AttributionIsUnique(NameFor(s, short), s, t);
    }
  }

  /** How many characters of the suffix survive the 63-character cut behind a sanitized name of this length. */
  function SuffixKept(length: nat): nat
    requires length <= 49
  {
    if length <= 42 then 8 else 50 - length
  }

  lemma NameKeeps(s: string, short: Suffix)
    requires |Sanitize(s)| <= 49
    ensures NameFor(s, short) == PrefixFor(s) + short[..SuffixKept(|Sanitize(s)|)]
  {
    var full, k := PrefixFor(s) + short, SuffixKept(|Sanitize(s)|);
    TruncateShape(full);
    assert |PrefixFor(s)| == |Sanitize(s)| + 13;
    if |full| > MAX_NAME {
      assert full[MAX_NAME - 1] == short[k - 1] && IsHex(short[k - 1]);
      assert |NameFor(s, short)| == MAX_NAME;
      assert NameFor(s, short) == full[..MAX_NAME] == PrefixFor(s) + short[..k];
    }
  }

  /**
   Up to 49 characters, two generated names are one and the same exactly when
   their scale sets sanitize alike and the suffixes agree as far as the cut
   leaves them.
   */
  lemma NamesCollideIff(s: string, t: string, a: Suffix, b: Suffix)
    requires |Sanitize(s)| <= 49 && |Sanitize(t)| <= 49
    ensures NameFor(s, a) == NameFor(t, b) <==>
      Sanitize(s) == Sanitize(t) && a[..SuffixKept(|Sanitize(s)|)] == b[..SuffixKept(|Sanitize(t)|)]
  {
    NameKeeps(s, a);
    NameKeeps(t, b);
    if NameFor(s, a) == NameFor(t, b) {
      OwnNameRecognised(s, a);
      OwnNameRecognised(t, b);
      AttributionIsUnique(NameFor(s, a), s, t);
      assert a[..SuffixKept(|Sanitize(s)|)] == NameFor(s, a)[|PrefixFor(s)|..];
    }
  }

  /** What the 63-character cut leaves of a long sanitized name. */
  function CutName(sanitized: string): string
    requires |sanitized| >= 50
  {
    TrimRight((sanitized + "-")[..51])
  }

  /** Cutting and trimming behind a fixed prefix is cutting and trimming the rest. */
  lemma {:induction false} TrimBehindPrefix(prefix: string, s: string)
    requires s != "" && s[0] != '-'
    ensures TrimRight(prefix + s) == prefix + TrimRight(s)
  {
    if s[|s| - 1] == '-' {
      TrimBehindPrefix(prefix, s[..|s| - 1]);
      assert (prefix + s)[..|prefix + s| - 1] == prefix + s[..|s| - 1];
    }
  }

  lemma CutBehindPrefix(prefix: string, s: string, short: string)
    requires |prefix| == 12 && |s| >= 50 && s[0] != '-' && |short| == 8
    ensures Truncate(prefix + s + "-" + short) == prefix + CutName(s)
  {
    var full := prefix + s + "-" + short;
    var cut := (s + "-")[..51];
    assert full == prefix + ((s + "-") + short);
    assert full[..MAX_NAME] == prefix + cut;
    TrimBehindPrefix(prefix, cut);
  }

  lemma LongNameIs(s: string, short: Suffix)
    requires |Sanitize(s)| >= 50
    ensures NameFor(s, short) == VM_NAME_PREFIX + CutName(Sanitize(s))
  {
    SanitizeCanonical(s);
    PrefixSafe();
    CutBehindPrefix(VM_NAME_PREFIX, Sanitize(s), short);
    assert PrefixFor(s) + short == VM_NAME_PREFIX + Sanitize(s) + "-" + short;
  }

  /** From 50 characters on, a scale set has one name for all its VMs. */
  lemma LongNamesCollide(s: string, a: Suffix, b: Suffix)
    requires |Sanitize(s)| >= 50
    ensures NameFor(s, a) == NameFor(s, b)
  {
    LongNameIs(s, a);
    LongNameIs(s, b);
  }

  /**
   From 50 on, names of different scale sets can be the same: of two long ones
   exactly when the cut leaves the same of both, and of a long and a short one
   exactly when it leaves of the long one what the short one's name is.
   */
  lemma LongNamesCollideIff(s: string, t: string, a: Suffix, b: Suffix)
    requires |Sanitize(s)| >= 50
    ensures |Sanitize(t)| >= 50 ==>
      (NameFor(s, a) == NameFor(t, b) <==> CutName(Sanitize(s)) == CutName(Sanitize(t)))
    ensures |Sanitize(t)| <= 49 ==>
      (NameFor(s, a) == NameFor(t, b) <==> CutName(Sanitize(s)) == Sanitize(t) + "-" + b[..SuffixKept(|Sanitize(t)|)])
  {
    LongNameIs(s, a);
    if |Sanitize(t)| >= 50 {
      LongNameIs(t, b);
      SameBehind(VM_NAME_PREFIX, CutName(Sanitize(s)), CutName(Sanitize(t)));
    } else {
      NameKeeps(t, b);
      var tail := Sanitize(t) + "-" + b[..SuffixKept(|Sanitize(t)|)];
      assert NameFor(t, b) == VM_NAME_PREFIX + tail;
      SameBehind(VM_NAME_PREFIX, CutName(Sanitize(s)), tail);
    }
  }

  lemma SameBehind(prefix: string, x: string, y: string)
    ensures prefix + x == prefix + y <==> x == y
  {
    assert x == (prefix + x)[|prefix|..] && y == (prefix + y)[|prefix|..];
  }

  lemma SharedPrefix(base: string, p: string, name: string)
    ensures PrefixThenHyphenFree(base + p, base + name) <==> PrefixThenHyphenFree(p, name)
  {
    if p <= name {
      assert base + p <= base + name;
      assert (base + name)[|base + p|..] == name[|p|..];
    }
    if base + p <= base + name {
      assert p == (base + p)[|base|..] && name == (base + name)[|base|..];
      assert (base + name)[..|base + p|] == base + p;
      assert name[..|p|] == p;
    }
  }

  /**
   Past it, the suffix is cut off whole, and whose the VMs become is decided by
   what the cut leaves of the sanitized name: they are attributed to `t` exactly
   when that is the sanitized `t`, a hyphen and a hyphen-free rest.
   */
  lemma LongNameAttribution(s: string, t: string, short: Suffix)
    requires |Sanitize(s)| >= 50
    ensures AttributedTo(NameFor(s, short), t) <==> PrefixThenHyphenFree(Sanitize(t) + "-", CutName(Sanitize(s)))
  {
    SanitizeCanonical(s);
    PrefixSafe();
    CutBehindPrefix(VM_NAME_PREFIX, Sanitize(s), short);
    assert PrefixFor(s) + short == VM_NAME_PREFIX + Sanitize(s) + "-" + short;
    assert PrefixFor(t) == VM_NAME_PREFIX + (Sanitize(t) + "-");
    SharedPrefix(VM_NAME_PREFIX, Sanitize(t) + "-", CutName(Sanitize(s)));
  }

  /**
   So a scale set whose long name extends another's by one hyphen-free part has
   all its VMs attributed to that other scale set exactly when the other name
   ends before the cut, and none to itself.
   */
  lemma LongNameGoesAstray(s: string, t: string, rest: string, short: Suffix)
    requires Sanitize(s) == Sanitize(t) + "-" + rest && rest != "" && '-' !in rest && |Sanitize(s)| >= 50
    ensures AttributedTo(NameFor(s, short), t) <==> |Sanitize(t)| < 50
    ensures !AttributedTo(NameFor(s, short), s)
  {
    LongNameAttribution(s, t, short);
    OwnNameRecognised(s, short);
    var p := Sanitize(t) + "-";
    var cut := (Sanitize(s) + "-")[..51];
    TrimRightShape(cut);
    if |Sanitize(t)| >= 50 {
      assert |Sanitize(t)| == 50 ==> cut == p && cut[50] == '-';
    } else if |Sanitize(s)| == 50 {
      assert cut == (p + rest) + "-";
      TrimOneHyphen(p + rest);
    } else {
      var k := 50 - |Sanitize(t)|;
      assert cut == p + rest[..k];
      assert cut[50] == rest[k - 1];
      assert CutName(Sanitize(s)) == cut;
    }
  }

  lemma TrimOneHyphen(s: string)
    requires s != "" && s[|s| - 1] != '-'
    ensures TrimRight(s + "-") == s
  {
    assert (s + "-")[..|s|] == s;
  }

  // ---- What sanitizing is --------------------------------------------------------

  lemma {:induction false} CleanCharsAt(s: string, i: nat)
    requires i < |s|
    ensures |CleanChars(s)| == |s|
    ensures IsSafe(s[i]) ==> CleanChars(s)[i] == s[i]
    ensures 'A' <= s[i] <= 'Z' ==> CleanChars(s)[i] as int - 'a' as int == s[i] as int - 'A' as int
    ensures s[i] == '\U{0130}' ==> CleanChars(s)[i] == 'i'
    ensures s[i] == '\U{212A}' ==> CleanChars(s)[i] == 'k'
    ensures !IsSafe(s[i]) && !('A' <= s[i] <= 'Z') && s[i] !in ['\U{0130}', '\U{212A}'] ==> CleanChars(s)[i] == '-'
  {
    CleanCharsSafe(s);
    if i > 0 {
      CleanCharsAt(s[1..], i - 1);
    }
  }

  /** The sanitized name is what is left between leading and trailing hyphens, each character cleaned by itself. */
  lemma SanitizeMeans(s: string) returns (lo: nat, hi: nat)
    ensures lo <= hi <= |s| == |CleanChars(s)| && Sanitize(s) == CleanChars(s)[lo..hi]
    ensures forall i :: 0 <= i < |s| && !(lo <= i < hi) ==> CleanChars(s)[i] == '-'
    ensures Canonical(Sanitize(s))
  {
    CleanCharsSafe(s);
    SanitizeCanonical(s);
    var cleaned := CleanChars(s);
    var left := TrimLeft(cleaned);
    TrimLeftShape(cleaned);
    TrimmedAreHyphens(cleaned);
    TrimRightShape(left);
    lo := |cleaned| - |left|;
    hi := lo + |Sanitize(s)|;
    forall i | hi <= i < |s|
      ensures cleaned[i] == '-'
    {
      assert left[i - lo] == cleaned[i];
    }
  }

  lemma {:induction false} TrimmedAreHyphens(s: string)
    ensures |TrimLeft(s)| <= |s| && forall i :: 0 <= i < |s| - |TrimLeft(s)| ==> s[i] == '-'
  {
    TrimLeftShape(s);
    if |s| > 0 && s[0] == '-' {
      TrimLeftShape(s[1..]);
      TrimmedAreHyphens(s[1..]);
    }
  }
}
