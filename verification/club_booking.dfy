/** Court booking on the club screen (src/screens/booking/ClubDetailsScreen.js): picking a
    day and a time slot, and the checkout footer. Prices are integer cents. */
module ClubBooking {
  import opened Outcomes

  datatype SlotStatus = Booked | Available

  datatype Slot = Slot(id: string, time: string, status: SlotStatus)

  /** The slots drawn on the screen. */
  const Slots: seq<Slot> := [
    Slot("1", "18:00", Booked),
    Slot("2", "19:00", Available),
    Slot("3", "20:00", Available),
    Slot("4", "21:00", Available)
  ]

  /** The labels of the day buttons. */
  const DayLabels: seq<string> := ["Hoje", "Amanhã", "Sex", "Sáb", "Dom"]

  /** The club's hourly price, R$ 120.00. */
  const PricePerHourCents: nat := 12000

  datatype BookingState = BookingState(selectedSlot: Option<string>, selectedDate: nat)

  function Initial(): (st: BookingState)
    ensures st.selectedSlot.None? && st.selectedDate == 0
  {
    BookingState(None, 0)
  }

  /** A slot button is enabled, and shows its price, only when the slot is available. */
  predicate Tappable(s: Slot) {
    s.status == Available
  }

  /** The price line under a slot button, in cents: drawn only for an available slot. */
  function PriceLabel(s: Slot): (r: Option<nat>)
    ensures r.Some? <==> s.status == Available
    ensures r.Some? ==> r.value == PricePerHourCents
  {
    if Tappable(s) then Some(PricePerHourCents) else None
  }

  /** A tap on the slot button at `index`: an enabled button selects its slot; a disabled
      one, or an index where no button is drawn, changes nothing. */
  function TapSlot(st: BookingState, index: nat): (r: BookingState)
    ensures r.selectedDate == st.selectedDate
    ensures index < |Slots| && Tappable(Slots[index]) ==> r.selectedSlot == Some(Slots[index].id)
    ensures !(index < |Slots| && Tappable(Slots[index])) ==> r == st
  {
    if index < |Slots| && Slots[index].status == Available then st.(selectedSlot := Some(Slots[index].id))
    else st
  }

  /** A tap on the day button at `index`. */
  function TapDate(st: BookingState, index: nat): (r: BookingState)
    ensures r.selectedSlot == st.selectedSlot
    ensures index < |DayLabels| ==> r.selectedDate == index
    ensures index >= |DayLabels| ==> r == st
  {
    if index < |DayLabels| then st.(selectedDate := index) else st
  }

  /** The day number under the day button at `index`. */
  function DayNumber(index: nat): (n: nat)
    requires index < |DayLabels|
    ensures 14 <= n <= 18 && n - index == 14
  {
    14 + index
  }

  /** `selectedSlot` used as a condition: a non-empty id string is truthy. */
  predicate HasSelection(st: BookingState) {
    st.selectedSlot.Some? && st.selectedSlot.value != ""
  }

  /** The Confirm button is enabled exactly when `selectedSlot` is truthy. */
  predicate ConfirmEnabled(st: BookingState) {
    HasSelection(st)
  }

  /** The total shown in the footer, in cents. */
  function TotalCents(st: BookingState): (c: nat)
    ensures c == 0 || c == PricePerHourCents
    ensures c > 0 <==> ConfirmEnabled(st)
  {
    if HasSelection(st) then PricePerHourCents else 0
  }

  /** A slot button is drawn selected when its id is the selected one. */
  predicate Highlighted(st: BookingState, index: nat)
    requires index < |Slots|
  {
    st.selectedSlot == Some(Slots[index].id)
  }

  datatype BookingTap = SlotTap(index: nat) | DateTap(index: nat)

  function Apply(st: BookingState, t: BookingTap): BookingState {
    match t
    case SlotTap(i) => TapSlot(st, i)
    case DateTap(i) => TapDate(st, i)
  }

  function Run(st: BookingState, taps: seq<BookingTap>): BookingState
    decreases |taps|
  {
    if |taps| == 0 then st else Run(Apply(st, taps[0]), taps[1..])
  }

  /** The selected slot, if any, is an available one, and the day index is one on screen. */
  predicate Valid(st: BookingState) {
    && st.selectedDate < |DayLabels|
    && (st.selectedSlot.Some? ==>
          exists i :: 0 <= i < |Slots| && Slots[i].id == st.selectedSlot.value && Tappable(Slots[i]))
  }

  lemma {:induction false} RunKeepsValid(st: BookingState, taps: seq<BookingTap>)
    requires Valid(st)
    ensures Valid(Run(st, taps))
    decreases |taps|
  {
    if |taps| > 0 {
      var next := Apply(st, taps[0]);
      if taps[0].SlotTap? && taps[0].index < |Slots| && Tappable(Slots[taps[0].index]) {
        assert Slots[taps[0].index].id == next.selectedSlot.value;
      }
      RunKeepsValid(next, taps[1..]);
    }
  }

  /** After any taps, nothing but an available slot is ever selected and the day stays on screen. */
  lemma ReachableValid(taps: seq<BookingTap>)
    ensures Valid(Run(Initial(), taps))
  {
    RunKeepsValid(Initial(), taps);
  }

  /** Every slot id is non-empty and distinct. */
  lemma SlotIdsDistinct()
    ensures forall i, j :: 0 <= i < j < |Slots| ==> Slots[i].id != Slots[j].id
    ensures forall i :: 0 <= i < |Slots| ==> Slots[i].id != ""
  {
  }

  /** In a valid state, Confirm is enabled and the price is charged exactly when a slot is
      selected, and at most one slot button is drawn selected. */
  lemma ValidFooter(st: BookingState)
    requires Valid(st)
    ensures ConfirmEnabled(st) <==> st.selectedSlot.Some?
    ensures TotalCents(st) == (if st.selectedSlot.Some? then PricePerHourCents else 0)
    ensures forall i, j :: 0 <= i < j < |Slots| ==> !(Highlighted(st, i) && Highlighted(st, j))
  {
    SlotIdsDistinct();
  }
}
