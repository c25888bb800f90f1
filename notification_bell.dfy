/** The notification bell in the header: the plants due today, the badge
    count, and the dropdown that each click opens or closes. */
module NotificationBell {
  import opened Wrappers
  import opened Timestamps
  import opened Seqs
  import opened App
  import opened PlantCard

  /** The filter test: the next watering falls on today's date. */
  function DueToday(now: Timestamp): Plant -> bool {
    p => WaterToday(p, now)
  }

  /** `plantsNeedingWater`. */
  function PlantsNeedingWater(plants: seq<Plant>, now: Timestamp): seq<Plant> {
    Filter(DueToday(now), plants)
  }

  /** The plants due today, in their stored order, each as often as it is
      stored; a plant is listed exactly when it is stored and due today. */
  lemma NeedingWaterIsDueToday(plants: seq<Plant>, now: Timestamp)
    ensures IsSubsequence(PlantsNeedingWater(plants, now), plants)
    ensures forall p :: p in PlantsNeedingWater(plants, now) <==> p in plants && WaterToday(p, now)
    ensures forall p :: multiset(PlantsNeedingWater(plants, now))[p]
                        == if WaterToday(p, now) then multiset(plants)[p] else 0
  {
    FilterIsSubsequence(DueToday(now), plants);
    forall p ensures multiset(PlantsNeedingWater(plants, now))[p]
                     == if WaterToday(p, now) then multiset(plants)[p] else 0 {
      FilterCounts(DueToday(now), plants, p);
    }
  }

  /** A plant that fell due on an earlier day is never listed, however
      overdue it is. */
  lemma OverdueFromEarlierDayNotListed(plants: seq<Plant>, now: Timestamp, p: Plant)
    requires p.nextWatering.day < now.day
    ensures p !in PlantsNeedingWater(plants, now)
  {
    NeedingWaterIsDueToday(plants, now);
  }

  /** One reminder line: the plant's name and species. */
  datatype Reminder = Reminder(name: string, species: string)

  datatype Dropdown = Reminders(items: seq<Reminder>) | NoReminders

  /** What the bell renders. */
  datatype BellView = BellView(
    hasNotificationsClass: bool,
    badge: Option<nat>,
    dropdown: Option<Dropdown>)

  function View(plants: seq<Plant>, now: Timestamp, isOpen: bool): BellView {
    var due := PlantsNeedingWater(plants, now);
    var hasNotifications := |due| > 0;
    BellView(hasNotifications,
      if hasNotifications then Some(|due|) else None,
      if !isOpen then None
      else if hasNotifications then Some(Reminders(seq(|due|, i requires 0 <= i < |due| => Reminder(due[i].name, due[i].species))))
      else Some(NoReminders))
  }

  /** The badge shows the number of plants due today and appears exactly
      when there is at least one; the dropdown is present exactly when open,
      and lists those plants in order, or says there are none. */
  lemma ViewReportsDuePlants(plants: seq<Plant>, now: Timestamp, isOpen: bool)
    ensures var v := View(plants, now, isOpen);
      var due := PlantsNeedingWater(plants, now);
      (v.hasNotificationsClass <==> exists i :: 0 <= i < |plants| && WaterToday(plants[i], now))
      && (v.badge.Some? ==> v.badge.value == |due| && |due| > 0)
      && (v.badge.None? <==> due == [])
      && (v.dropdown.Some? <==> isOpen)
      && (v.dropdown == Some(NoReminders) <==> isOpen && due == [])
      && (v.dropdown.Some? && v.dropdown.value.Reminders? ==>
            |v.dropdown.value.items| == |due|
            && forall i :: 0 <= i < |due| ==>
                 v.dropdown.value.items[i] == Reminder(due[i].name, due[i].species))
  {
    var due := PlantsNeedingWater(plants, now);
    if exists i :: 0 <= i < |plants| && WaterToday(plants[i], now) {
      var i :| 0 <= i < |plants| && WaterToday(plants[i], now);
      assert DueToday(now)(plants[i]);
      assert plants[i] in due;
    }
    if |due| > 0 {
      assert due[0] in plants && DueToday(now)(due[0]);
      var i :| 0 <= i < |plants| && plants[i] == due[0];
      assert WaterToday(plants[i], now);
    }
  }

  /** The `isOpen` state of the bell. */
  class Bell {
    var isOpen: bool

    constructor()
      ensures !isOpen
    {
      isOpen := false;
    }

    /** The click handler `setIsOpen(!isOpen)`. */
    method Click()
      modifies this
      ensures isOpen == !old(isOpen)
    {
      isOpen := !isOpen;
    }

    /** Two clicks leave the bell as it was. */
    method ClickTwice()
      modifies this
      ensures isOpen == old(isOpen)
    {
      Click();
      Click();
    }

    function Render(plants: seq<Plant>, now: Timestamp): BellView
      reads this
    {
      View(plants, now, isOpen)
    }
  }
}
