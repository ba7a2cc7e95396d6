/**
 * Owner-tag resolution: the single pass over a cluster's tags that picks at most one
 * recipient address. The pass is modelled once, generic in the test applied to the
 * owner value (`accept`); `ResolveAsWritten` instantiates it with the test the script
 * applies, `Resolve` with the corrected one; the driver in `Monitor` takes either.
 */
module OwnerTags {
  import opened Wrappers
  import opened Text
  import opened EmailPattern

  /** One EMR tag. Either field may be absent from the describe response. */
  datatype Tag = Tag(key: Option<string>, value: Option<string>)

  /**
   * What the scan produces: the recipient list (empty or one address), or
   * `MalformedTag` when reading a tag raises (a missing `Key`, or a missing
   * `Value` on a tag whose key is an owner key).
   */
  datatype ScanResult = Recipients(addresses: seq<string>) | MalformedTag

  /** `key.lower() == 'owner'`. */
  predicate IsOwnerKey(key: string)
    ensures IsOwnerKey(key) ==> |key| == 5
  {
    Lower(key) == "owner"
  }

  /**
   * The scan of the script, tag by tag, with `accept` standing for the address test.
   * It finds at most one recipient.
   */
  function Scan(tags: seq<Tag>, accept: string -> bool): (r: ScanResult)
    ensures r.Recipients? ==> |r.addresses| <= 1
  {
    if tags == [] then Recipients([])
    else
      match tags[0].key
      case None => MalformedTag
      case Some(k) =>
        if !IsOwnerKey(k) then Scan(tags[1..], accept)
        else
          match tags[0].value
          case None => MalformedTag
          case Some(v) =>
            if v == "" then Scan(tags[1..], accept)
            else if accept(v) then Recipients([Strip(v)])
            else Recipients([])
  }

  // ---------------------------------------------------------------------------
  // A declarative reading of the scan: it ends at the first tag that stops it.

  /** A tag ends the scan when reading it raises or when it is an owner tag with a non-empty value. */
  predicate StopsScan(t: Tag) {
    t.key.None? || (IsOwnerKey(t.key.value) && t.value != Some(""))
  }

  /** What the scan produces when it ends at tag `t`. */
  function StopResult(t: Tag, accept: string -> bool): ScanResult
    requires StopsScan(t)
  {
    if t.key.None? || t.value.None? then MalformedTag
    else if accept(t.value.value) then Recipients([Strip(t.value.value)])
    else Recipients([])
  }

  /** `i` is the first position whose tag stops the scan. */
  predicate IsFirstStop(tags: seq<Tag>, i: int) {
    0 <= i < |tags| && StopsScan(tags[i]) && forall j :: 0 <= j < i ==> !StopsScan(tags[j])
  }

  /** The scan yields exactly what the first stopping tag yields. */
  lemma {:induction false} ScanEndsAtFirstStop(tags: seq<Tag>, i: int, accept: string -> bool)
    requires IsFirstStop(tags, i)
    ensures Scan(tags, accept) == StopResult(tags[i], accept)
  {
    if i > 0 {
      assert IsFirstStop(tags[1..], i - 1);
      ScanEndsAtFirstStop(tags[1..], i - 1, accept);
    }
  }

  /** Without a stopping tag the scan reads every tag and finds no recipient. */
  lemma {:induction false} ScanWithoutStop(tags: seq<Tag>, accept: string -> bool)
    requires forall j :: 0 <= j < |tags| ==> !StopsScan(tags[j])
    ensures Scan(tags, accept) == Recipients([])
  {
    if tags != [] {
      ScanWithoutStop(tags[1..], accept);
    }
  }

  /**
   * When the scan finds a recipient, it is the stripped value of the first owner tag
   * with a non-empty value, a value that passed `accept`.
   */
  lemma {:induction false} ScanYieldsFirstOwnerValue(tags: seq<Tag>, accept: string -> bool)
    ensures Scan(tags, accept).Recipients? && |Scan(tags, accept).addresses| == 1 ==>
      exists i :: IsFirstStop(tags, i) && tags[i].key.Some? && tags[i].value.Some?
                  && accept(tags[i].value.value)
                  && Scan(tags, accept).addresses == [Strip(tags[i].value.value)]
  {
    if tags != [] && !StopsScan(tags[0]) {
      ScanYieldsFirstOwnerValue(tags[1..], accept);
      if Scan(tags, accept).Recipients? && |Scan(tags, accept).addresses| == 1 {
        var i :| IsFirstStop(tags[1..], i) && tags[1..][i].key.Some? && tags[1..][i].value.Some?
                 && accept(tags[1..][i].value.value)
                 && Scan(tags[1..], accept).addresses == [Strip(tags[1..][i].value.value)];
        assert IsFirstStop(tags, i + 1);
      }
    } else if tags != [] {
      assert IsFirstStop(tags, 0);
    }
  }

  /**
   * A tag that does not stop the scan (a non-owner key, whatever its value, or an owner
   * key with an empty value) can be put anywhere without changing the outcome.
   */
  lemma {:induction false} PassingTagIsIgnored(tags: seq<Tag>, i: int, t: Tag, accept: string -> bool)
    requires 0 <= i <= |tags|
    requires !StopsScan(t)
    ensures Scan(tags[..i] + [t] + tags[i..], accept) == Scan(tags, accept)
  {
    var with := tags[..i] + [t] + tags[i..];
    if i == 0 {
      assert with[1..] == tags;
    } else {
      assert with[0] == tags[0];
      assert with[1..] == tags[1..][..i - 1] + [t] + tags[1..][i - 1..];
      PassingTagIsIgnored(tags[1..], i - 1, t, accept);
    }
  }

  /**
   * First owner tag wins: once an owner tag with a non-empty value fails the test,
   * no recipient is found, whatever owner tags follow it.
   */
  lemma RejectedOwnerSuppressesLaterOwners(before: seq<Tag>, k: string, v: string, after: seq<Tag>,
                                           accept: string -> bool)
    requires forall j :: 0 <= j < |before| ==> !StopsScan(before[j])
    requires IsOwnerKey(k) && v != "" && !accept(v)
    ensures Scan(before + [Tag(Some(k), Some(v))] + after, accept) == Recipients([])
  {
    var tags := before + [Tag(Some(k), Some(v))] + after;
    assert IsFirstStop(tags, |before|);
    ScanEndsAtFirstStop(tags, |before|, accept);
  }

  /** The owner key is matched ignoring ASCII case, and nothing else about the key is relaxed. */
  lemma OwnerKeyIgnoresCase(k: string)
    ensures IsOwnerKey(k) <==> |k| == 5 && forall j :: 0 <= j < 5 ==> k[j] == "owner"[j] || k[j] == "OWNER"[j]
  {
    if |k| == 5 {
      forall j | 0 <= j < 5 ensures LowerChar(k[j]) == "owner"[j] <==> k[j] == "owner"[j] || k[j] == "OWNER"[j] {
      }
      if IsOwnerKey(k) {
        assert forall j :: 0 <= j < 5 ==> Lower(k)[j] == "owner"[j];
      } else {
        var j :| 0 <= j < 5 && Lower(k)[j] != "owner"[j];
        assert LowerChar(k[j]) != "owner"[j];
      }
    }
  }

  /** The spellings of the owner key. */
  lemma OwnerKeySpellings()
    ensures IsOwnerKey("owner") && IsOwnerKey("Owner") && IsOwnerKey("OWNER")
    ensures !IsOwnerKey(" owner") && !IsOwnerKey("owners") && !IsOwnerKey("Owner_")
  {
    OwnerKeyIgnoresCase("owner");
    OwnerKeyIgnoresCase("Owner");
    OwnerKeyIgnoresCase("OWNER");
    OwnerKeyIgnoresCase("Owner_");
  }

  /**
   * The scan as the script runs it (lines 83-88 of long_running_cluster.py): a loop over
   * the tags that appends at most one address and leaves at the first owner tag with a
   * non-empty value.
   */
  method ScanTags(tags: seq<Tag>, accept: string -> bool) returns (res: ScanResult)
    ensures res == Scan(tags, accept)
  {
    var recipients: seq<string> := [];
    var i := 0;
    while i < |tags|
      invariant 0 <= i <= |tags|
      invariant recipients == []
      invariant Scan(tags, accept) == Scan(tags[i..], accept)
    {
      var tag := tags[i];
      assert tags[i..][1..] == tags[i + 1..];
      if tag.key.None? {
        return MalformedTag;
      }
      if IsOwnerKey(tag.key.value) {
        if tag.value.None? {
          return MalformedTag;
        }
        var v := tag.value.value;
        if v != "" {
          if accept(v) {
            recipients := recipients + [Strip(v)];
          }
          return Recipients(recipients);
        }
      }
      i := i + 1;
    }
    return Recipients(recipients);
  }

  // ---------------------------------------------------------------------------
  // The address test: as written, and corrected.

  /**
   * Line 86 as written: the pattern is tested on the raw value, and the stripped value is
   * stored, so the one recipient is the stripped form of a value that passed the pattern.
   */
  function ResolveAsWritten(tags: seq<Tag>): (r: ScanResult)
    ensures r.Recipients? && |r.addresses| == 1 ==> exists v :: IsEmailAddress(v) && r.addresses == [Strip(v)]
  {
    ScanYieldsFirstOwnerValue(tags, IsEmailAddress);
    Scan(tags, IsEmailAddress)
  }

  /** The test on the value that is stored. */
  predicate StrippedIsEmailAddress(v: string) {
    IsEmailAddress(Strip(v))
  }

  /**
   * The corrected resolution: the stripped value, the one that is stored, must pass the
   * pattern, so every address it yields is well formed.
   */
  function Resolve(tags: seq<Tag>): (r: ScanResult)
    ensures r.Recipients? ==> forall a :: a in r.addresses ==> IsEmailAddress(a)
  {
    ScanYieldsFirstOwnerValue(tags, StrippedIsEmailAddress);
    Scan(tags, StrippedIsEmailAddress)
  }

  // Sample values for the lemmas below, named for the same reason as in EmailPattern.
  const PaddedAddress: string := " @domain.com"
  const BareDomain: string := "@domain.com"
  const NotAnAddress: string := "bad-value"

  lemma PaddedValuePassesPattern()
    ensures IsEmailAddress(PaddedAddress)
  {
    var v := PaddedAddress;
    assert v[1] == '@' && v[8] == '.' && AtOnlyAt(v, 1);
    PatternGivesShape(v);
  }

  lemma PaddedValueStrips()
    ensures Strip(PaddedAddress) == BareDomain
  {
    var v := PaddedAddress;
    assert AllSpace(v[..1]) && AllSpace(v[|v|..]);
    StripBetween(v, 1, |v|);
    assert v[1..|v|] == BareDomain;
  }

  /**
   * As written, the script can store an address that fails its own pattern: the raw value
   * " @domain.com" passes (the blank is a non-'@' local part), and the stored "@domain.com" does not.
   */
  lemma AsWrittenStoresMalformedAddress()
    ensures ResolveAsWritten([Tag(Some("owner"), Some(PaddedAddress))]) == Recipients([BareDomain])
    ensures !IsEmailAddress(BareDomain)
  {
    assert IsEmailAddress(PaddedAddress) by { PaddedValuePassesPattern(); }
    assert Strip(PaddedAddress) == BareDomain by { PaddedValueStrips(); }
    assert IsOwnerKey("owner") by { OwnerKeySpellings(); }
    var tags := [Tag(Some("owner"), Some(PaddedAddress))];
    assert IsFirstStop(tags, 0);
    ScanEndsAtFirstStop(tags, 0, IsEmailAddress);
    assert IndexOf(BareDomain, '@') == 0;
  }

  /** Two address tests that agree on every tag value give the same scan. */
  lemma {:induction false} ScanDependsOnlyOnTestedValues(tags: seq<Tag>, f: string -> bool, g: string -> bool)
    requires forall j :: 0 <= j < |tags| && tags[j].value.Some? ==> f(tags[j].value.value) == g(tags[j].value.value)
    ensures Scan(tags, f) == Scan(tags, g)
  {
    if tags != [] {
      ScanDependsOnlyOnTestedValues(tags[1..], f, g);
    }
  }

  /** The correction changes nothing for tag values that carry no surrounding whitespace. */
  lemma CorrectionAgreesOnUnpaddedValues(tags: seq<Tag>)
    requires forall j :: 0 <= j < |tags| && tags[j].value.Some? ==> Strip(tags[j].value.value) == tags[j].value.value
    ensures Resolve(tags) == ResolveAsWritten(tags)
  {
    forall j | 0 <= j < |tags| && tags[j].value.Some?
      ensures StrippedIsEmailAddress(tags[j].value.value) == IsEmailAddress(tags[j].value.value)
    {
    }
    ScanDependsOnlyOnTestedValues(tags, StrippedIsEmailAddress, IsEmailAddress);
  }

  /** A lone owner tag whose value is a trimmed address resolves to that address under either test. */
  lemma LoneOwnerTagResolves(k: string, v: string)
    requires IsOwnerKey(k) && v != "" && Strip(v) == v && IsEmailAddress(v)
    ensures Resolve([Tag(Some(k), Some(v))]) == Recipients([v])
    ensures ResolveAsWritten([Tag(Some(k), Some(v))]) == Recipients([v])
  {
    var tags := [Tag(Some(k), Some(v))];
    assert IsFirstStop(tags, 0);
    ScanEndsAtFirstStop(tags, 0, StrippedIsEmailAddress);
    ScanEndsAtFirstStop(tags, 0, IsEmailAddress);
  }

  /** A valid owner address becomes the one recipient, with either test. */
  lemma ValidOwnerScenario()
    ensures Resolve([Tag(Some("owner"), Some(PlainAddress))]) == Recipients([PlainAddress])
    ensures ResolveAsWritten([Tag(Some("owner"), Some(PlainAddress))]) == Recipients([PlainAddress])
  {
    assert Strip(PlainAddress) == PlainAddress by { StripOfTrimmed(PlainAddress); }
    assert IsEmailAddress(PlainAddress) by { AcceptsPlainAddress(); }
    assert IsOwnerKey("owner") by { OwnerKeySpellings(); }
    LoneOwnerTagResolves("owner", PlainAddress);
  }

  /** "bad-value" fails the address test, whether applied to the raw or the stripped value. */
  lemma NotAnAddressRejected()
    ensures !IsEmailAddress(NotAnAddress)
    ensures !StrippedIsEmailAddress(NotAnAddress)
  {
    NoAtRejected(NotAnAddress);
    StripOfTrimmed(NotAnAddress);
  }

  /**
   * An invalid first owner value hides a valid later one, as written and corrected; no owner
   * tag at all gives no recipient.
   */
  lemma InvalidOwnerScenario()
    ensures ResolveAsWritten([Tag(Some("Owner"), Some(NotAnAddress)), Tag(Some("owner"), Some(PlainAddress))])
            == Recipients([])
    ensures Resolve([Tag(Some("Owner"), Some(NotAnAddress)), Tag(Some("owner"), Some(PlainAddress))])
            == Recipients([])
    ensures ResolveAsWritten([]) == Recipients([]) && Resolve([]) == Recipients([])
  {
    assert !IsEmailAddress(NotAnAddress) && !StrippedIsEmailAddress(NotAnAddress) by {
      NotAnAddressRejected();
    }
    assert IsOwnerKey("Owner") by { OwnerKeySpellings(); }
    var later := [Tag(Some("owner"), Some(PlainAddress))];
    RejectedOwnerSuppressesLaterOwners([], "Owner", NotAnAddress, later, IsEmailAddress);
    RejectedOwnerSuppressesLaterOwners([], "Owner", NotAnAddress, later, StrippedIsEmailAddress);
  }
}
