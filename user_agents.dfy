/** `UserAgents.choose_random_user_agent` (src/app/core/user_agents.py):
    the desktop and mobile entry lists are merged, the entries with a `ua`
    key give the candidates, and one candidate is chosen. The choice made
    by `secrets.choice` is the parameter `pick`. */
module UserAgentChoice {
  import opened Wrappers
  import opened PyValue

  /** One entry of the scraped JSON: a dict such as `{"ua": ..., "pct": ...}`. */
  type UaEntry = seq<(string, Value)>

  datatype UaError = NoEntries | NoUaField

  /** `list(xs)` after `None` has been replaced by `[]`. */
  function OrEmpty(xs: Option<seq<UaEntry>>): (r: seq<UaEntry>)
    ensures xs.None? ==> r == []
    ensures xs.Some? ==> r == xs.value
  {
    if xs.Some? then xs.value else []
  }

  /** `[entry["ua"] for entry in entries if "ua" in entry]`. */
  function UaStrings(entries: seq<UaEntry>): (uas: seq<Value>)
    ensures |uas| <= |entries|
  {
    if entries == [] then []
    else
      match Lookup(entries[0], "ua")
      case Some(ua) => [ua] + UaStrings(entries[1..])
      case None => UaStrings(entries[1..])
  }

  /** A value is a candidate exactly when some entry has it under `ua`. */
  lemma {:induction false} UaStringsMembership(entries: seq<UaEntry>, v: Value)
    ensures v in UaStrings(entries) <==> exists i :: 0 <= i < |entries| && Lookup(entries[i], "ua") == Some(v)
  {
    if entries != [] {
      UaStringsMembership(entries[1..], v);
      if v in UaStrings(entries[1..]) {
        var i :| 0 <= i < |entries[1..]| && Lookup(entries[1..][i], "ua") == Some(v);
        assert entries[i + 1] == entries[1..][i];
      }
      if exists i :: 0 <= i < |entries| && Lookup(entries[i], "ua") == Some(v) {
        var i :| 0 <= i < |entries| && Lookup(entries[i], "ua") == Some(v);
        if i > 0 {
          assert entries[1..][i - 1] == entries[i];
        }
      }
    }
  }

  /** `choose_random_user_agent(desktop_list, mobile_list)`, where `pick`
      stands for the index `secrets.choice` draws. */
  function ChooseUserAgent(desktop: Option<seq<UaEntry>>, mobile: Option<seq<UaEntry>>, pick: nat): (r: Result<Value, UaError>)
    ensures r == Err(NoEntries) <==> OrEmpty(desktop) + OrEmpty(mobile) == []
    ensures r == Err(NoUaField) <==> OrEmpty(desktop) + OrEmpty(mobile) != [] && UaStrings(OrEmpty(desktop) + OrEmpty(mobile)) == []
    ensures r.Ok? ==> r.value in UaStrings(OrEmpty(desktop) + OrEmpty(mobile))
  {
    var combined := OrEmpty(desktop) + OrEmpty(mobile);
    if combined == [] then Err(NoEntries)
    else
      var uas := UaStrings(combined);
      if uas == [] then Err(NoUaField)
      else Ok(uas[pick % |uas|])
  }

  /** The answer is always the `ua` value of some desktop or mobile entry. */
  lemma ChosenComesFromAnEntry(desktop: Option<seq<UaEntry>>, mobile: Option<seq<UaEntry>>, pick: nat)
    requires ChooseUserAgent(desktop, mobile, pick).Ok?
    ensures var combined := OrEmpty(desktop) + OrEmpty(mobile);
      exists i :: 0 <= i < |combined| && Lookup(combined[i], "ua") == Some(ChooseUserAgent(desktop, mobile, pick).value)
  {
    UaStringsMembership(OrEmpty(desktop) + OrEmpty(mobile), ChooseUserAgent(desktop, mobile, pick).value);
  }

  /** Every entry with a `ua` value can be the answer: some draw picks it. */
  lemma EveryUaCanBeChosen(desktop: Option<seq<UaEntry>>, mobile: Option<seq<UaEntry>>, i: nat)
    requires i < |OrEmpty(desktop) + OrEmpty(mobile)|
    requires Has((OrEmpty(desktop) + OrEmpty(mobile))[i], "ua")
    ensures exists pick: nat :: ChooseUserAgent(desktop, mobile, pick) == Ok(Lookup((OrEmpty(desktop) + OrEmpty(mobile))[i], "ua").value)
  {
    var combined := OrEmpty(desktop) + OrEmpty(mobile);
    var v := Lookup(combined[i], "ua").value;
    var uas := UaStrings(combined);
    UaStringsMembership(combined, v);
    var k :| 0 <= k < |uas| && uas[k] == v;
    PickInRange(desktop, mobile, k);
  }

  lemma ModOfSmaller(k: nat, n: nat)
    requires k < n
    ensures k % n == k
  {
  }

  /** A draw below the number of candidates picks that candidate. */
  lemma PickInRange(desktop: Option<seq<UaEntry>>, mobile: Option<seq<UaEntry>>, k: nat)
    requires k < |UaStrings(OrEmpty(desktop) + OrEmpty(mobile))|
    ensures ChooseUserAgent(desktop, mobile, k) == Ok(UaStrings(OrEmpty(desktop) + OrEmpty(mobile))[k])
  {
    var combined := OrEmpty(desktop) + OrEmpty(mobile);
    var n := |UaStrings(combined)|;
    assert combined != [] && n > 0;
    ModOfSmaller(k, n);
  }

  /** `None` and an empty list are the same input. */
  lemma NoneIsEmpty(desktop: Option<seq<UaEntry>>, mobile: Option<seq<UaEntry>>, pick: nat)
    ensures desktop.None? ==> ChooseUserAgent(desktop, mobile, pick) == ChooseUserAgent(Some([]), mobile, pick)
    ensures mobile.None? ==> ChooseUserAgent(desktop, mobile, pick) == ChooseUserAgent(desktop, Some([]), pick)
  {
  }
}
