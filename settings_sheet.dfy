/**
 * The settings sheet's custom-time editor: six digit selectors
 * (H1 H2 : M1 M2 : S1 S2), initialised by splitting the configured duration
 * into tens and ones digits, and the "Set Custom Time" button, which joins
 * them back and fires the callback only for a non-zero duration.
 */
module Settings {
  import opened Format

  /** The highest digit a selector offers by default. */
  const DefaultMaxDigit: nat := 9

  /** The highest digit the tens-of-minutes and tens-of-seconds selectors offer. */
  const TensMaxDigit: nat := 5

  /** The six selectors, left to right. */
  datatype Slot = H1 | H2 | M1 | M2 | S1 | S2

  /** The range each selector is built with. */
  function MaxDigit(slot: Slot): (d: nat)
    ensures d <= DefaultMaxDigit
    ensures d == TensMaxDigit <==> slot == M1 || slot == S1
    ensures slot != M1 && slot != S1 ==> d == DefaultMaxDigit
  {
    match slot
    case M1 => TensMaxDigit
    case S1 => TensMaxDigit
    case _ => DefaultMaxDigit
  }

  /** The digits a selector lists, `0..maxDigit` in order. */
  function SelectorDigits(maxDigit: nat): (ds: seq<nat>)
    ensures |ds| == maxDigit + 1
    ensures forall i :: 0 <= i < |ds| ==> ds[i] == i
    decreases maxDigit
  {
    if maxDigit == 0 then [0] else SelectorDigits(maxDigit - 1) + [maxDigit]
  }

  /** A selector offers exactly the digits up to its maximum. */
  lemma SelectorOffers(maxDigit: nat, d: nat)
    ensures d in SelectorDigits(maxDigit) <==> d <= maxDigit
  {
    if d <= maxDigit {
      assert SelectorDigits(maxDigit)[d] == d;
    }
  }

  /** The tens digit the sheet starts a two-digit field with. */
  function Tens(v: nat): (t: nat)
    ensures t * 10 <= v < t * 10 + 10
  {
    v / 10
  }

  /** The ones digit the sheet starts a two-digit field with. */
  function Ones(v: nat): (o: nat)
    ensures o <= DefaultMaxDigit && (v - o) % 10 == 0
  {
    v % 10
  }

  /**
   * A two-digit field read from its selectors; splitting it again gives the
   * two digits back whenever the ones digit fits a selector.
   */
  function Join(tens: nat, ones: nat): (v: nat)
    ensures ones <= DefaultMaxDigit ==> Tens(v) == tens && Ones(v) == ones
  {
    tens * 10 + ones
  }

  /**
   * Splitting a component and joining it back gives the component; the ones
   * digit always fits a selector, the tens digit exactly when the component
   * is below 100.
   */
  lemma SplitJoin(v: nat)
    ensures Join(Tens(v), Ones(v)) == v
    ensures Ones(v) <= DefaultMaxDigit
    ensures Tens(v) <= DefaultMaxDigit <==> v < 100
    ensures v < 60 ==> Tens(v) <= TensMaxDigit
  {
  }

  /** A field composed from a 0..5 tens selector and a 0..9 ones selector is at most 59. */
  lemma SelectedFieldBelow60(tens: nat, ones: nat)
    requires tens in SelectorDigits(TensMaxDigit) && ones in SelectorDigits(DefaultMaxDigit)
    ensures Join(tens, ones) <= 59
  {
    SelectorOffers(TensMaxDigit, tens);
    SelectorOffers(DefaultMaxDigit, ones);
  }

  /** What the button hands to the view-model: a positive custom duration, or nothing. */
  datatype Request = NoRequest | CustomTime(hours: nat, minutes: nat, seconds: nat)

  /** The digit state of an open settings sheet. */
  class SettingsSheet {
    var h1: nat
    var h2: nat
    var m1: nat
    var m2: nat
    var s1: nat
    var s2: nat

    function Digit(slot: Slot): nat
      reads this
    {
      match slot
      case H1 => h1
      case H2 => h2
      case M1 => m1
      case M2 => m2
      case S1 => s1
      case S2 => s2
    }

    /** Every digit is one its selector offers. */
    ghost predicate Valid()
      reads this
    {
      && h1 <= MaxDigit(H1) && h2 <= MaxDigit(H2)
      && m1 <= MaxDigit(M1) && m2 <= MaxDigit(M2)
      && s1 <= MaxDigit(S1) && s2 <= MaxDigit(S2)
    }

    /** The duration the selectors currently show, field by field. */
    function Shown(): HMS
      reads this
    {
      HMS(Join(h1, h2), Join(m1, m2), Join(s1, s2))
    }

    /**
     * Opening the sheet splits the configured duration into digits, so it
     * shows that duration's whole seconds; every digit fits its selector when
     * the duration is below 100 hours.
     */
    constructor (initialTimeMillis: int)
      requires initialTimeMillis >= 0
      ensures Shown() == GetHMSFromMillis(initialTimeMillis)
      ensures TotalSeconds(Shown()) == initialTimeMillis / 1000
      ensures initialTimeMillis < 100 * 3600 * 1000 ==> Valid()
    {
      var t := GetHMSFromMillis(initialTimeMillis);
      h1 := t.hours / 10;
      h2 := t.hours % 10;
      m1 := t.minutes / 10;
      m2 := t.minutes % 10;
      s1 := t.seconds / 10;
      s2 := t.seconds % 10;
      new;
      GetHMSFromMillisSplits(initialTimeMillis);
      SplitJoin(t.hours);
      SplitJoin(t.minutes);
      SplitJoin(t.seconds);
      if initialTimeMillis < 100 * 3600 * 1000 {
        assert t.hours < 100;
      }
    }

    /** A selector's `onDigitSelected`: the picked digit replaces that slot's digit. */
    method SelectDigit(slot: Slot, d: nat)
      requires d in SelectorDigits(MaxDigit(slot))
      modifies this
      ensures Digit(slot) == d
      ensures forall other: Slot :: other != slot ==> Digit(other) == old(Digit(other))
      ensures old(Valid()) ==> Valid()
    {
      SelectorOffers(MaxDigit(slot), d);
      match slot
      case H1 => h1 := d;
      case H2 => h2 := d;
      case M1 => m1 := d;
      case M2 => m2 := d;
      case S1 => s1 := d;
      case S2 => s2 := d;
    }

    /**
     * The "Set Custom Time" button: joins the digits and requests the custom
     * time only when the duration is not zero.
     */
    method OnSetCustomTime() returns (r: Request)
      ensures r.CustomTime? <==> TotalSeconds(Shown()) > 0
      ensures r.CustomTime? ==> HMS(r.hours, r.minutes, r.seconds) == Shown()
      ensures Valid() && r.CustomTime? ==> r.hours <= 99 && r.minutes <= 59 && r.seconds <= 59
    {
      var hours := Join(h1, h2);
      var minutes := Join(m1, m2);
      var seconds := Join(s1, s2);
      if hours > 0 || minutes > 0 || seconds > 0 {
        r := CustomTime(hours, minutes, seconds);
      } else {
        r := NoRequest;
      }
    }
  }
}
