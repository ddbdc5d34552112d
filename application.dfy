/**
  The application object of the activity log, reduced to its navigation
  state: the viewed date and period with their snapshot, the current screen
  and the screen stack, and the deferred rebuild of the screens.
 */
module App {
  import opened ViewState
  import opened Screens

  /** Why the screens are being (re)created; the Settings screen is told.
      Only `Normal` is named in the modelled code; every other reason is an
      opaque tag. */
  datatype ScreenCreate = Normal | Requested(code: nat)

  /** What a main-loop iteration did to the screens. */
  datatype Rebuild = NoRebuild | Rebuilt(settingsReason: ScreenCreate)

  class Application {
    /** The viewed date. */
    var tm: Tm
    /** The period the date is viewed by. */
    var viewType: ViewPeriod
    /** Snapshot of `tm` and `viewType` taken by the last `TimeChanged`. */
    var tmCopy: Tm
    var viewTypeCopy: ViewPeriod
    /** The rebuild countdown and the reason handed to the next rebuild. */
    var reinitState: ReinitState
    var createReason: ScreenCreate
    /** The screen shown and the screens to return to (top last). */
    var screen: ScreenID
    var screenStack: seq<ScreenID>
    /** Launched from a user's page rather than as a standalone application. */
    var isUserPage: bool

    /** The viewed date and period as one value. */
    function CurrentView(): View
      reads this
    {
      View(tm, viewType)
    }

    /** The screen and the stack as one value. */
    function CurrentNavigation(): Navigation
      reads this
    {
      Navigation(screen, screenStack)
    }

    /** Start-up: view the period containing `now` by `configView`, from its
        first instant; start on the configured screen when launched from a
        user page and on the user selection otherwise. */
    constructor (now: Tm, configView: ViewPeriod, userPageUser: bool, configScreen: ScreenID)
      ensures viewType == configView
      ensures IsPeriodStart(tm, viewType) && SamePeriod(tm, now, viewType)
      ensures tmCopy == tm && viewTypeCopy == viewType
      ensures reinitState == False && createReason == Normal
      ensures screen == (if userPageUser then configScreen else UserSelect)
      ensures screenStack == []
      ensures isUserPage == userPageUser
    {
      isUserPage := userPageUser;
      var t := now;
      t := t.(hour := 0, min := 0, sec := 0);
      viewType := configView;
      // The year case falls through into the month case.
      if configView == Year {
        t := t.(mon := January);
      }
      if configView == Year || configView == Month {
        t := t.(mday := 1);
      }
      tm := t;
      tmCopy := t;
      viewTypeCopy := configView;
      createReason := Normal;
      reinitState := False;
      screenStack := [];
      screen := if userPageUser then configScreen else UserSelect;
    }

    /** Asks for the screens to be recreated for reason `c`. */
    method ReinitScreens(c: ScreenCreate)
      modifies this`createReason, this`reinitState
      ensures createReason == c && reinitState == Wait
    {
      createReason := c;
      reinitState := Wait;
    }

    /** Recreates the screens: the Settings screen receives the pending
        reason, which then reverts to `Normal`. */
    method CreateScreens() returns (settingsReason: ScreenCreate)
      modifies this`createReason
      ensures settingsReason == old(createReason) && createReason == Normal
    {
      settingsReason := createReason;
      createReason := Normal;
    }

    /** Shows screen `s`. */
    method SetScreen(s: ScreenID)
      modifies this`screen
      ensures screen == s
      ensures CurrentNavigation() == Apply(old(CurrentNavigation()), SetTo(s))
    {
      screen := s;
    }

    /** Remembers the current screen on the stack. */
    method PushScreen()
      modifies this`screenStack
      ensures screenStack == old(screenStack) + [screen]
      ensures CurrentNavigation() == Apply(old(CurrentNavigation()), Push)
    {
      screenStack := screenStack + [screen];
    }

    /** Returns to the most recently remembered screen, if there is one. */
    method PopScreen()
      modifies this`screen, this`screenStack
      ensures old(screenStack) == [] ==> screen == old(screen) && screenStack == []
      ensures old(screenStack) != [] ==>
        screen == old(screenStack)[|old(screenStack)| - 1]
        && screenStack == old(screenStack)[..|old(screenStack)| - 1]
      ensures CurrentNavigation() == Apply(old(CurrentNavigation()), Pop)
    {
      if screenStack != [] {
        screen := screenStack[|screenStack| - 1];
        screenStack := screenStack[..|screenStack| - 1];
      }
    }

    /** Moves the view one period back, but not before 2000. */
    method DecreaseDate(decreaseTm: (Tm, char) -> Tm)
      modifies this`tm
      ensures tm == StepBack(old(tm), viewType, decreaseTm)
    {
      match viewType
      case Day =>
        if tm.year == FirstYear && tm.mon == January && tm.mday == 1 {
          return;
        }
        tm := decreaseTm(tm, 'D');
      case Month =>
        if tm.year == FirstYear && tm.mon == January {
          return;
        }
        tm := decreaseTm(tm, 'M');
      case Year =>
        if tm.year == FirstYear {
          return;
        }
        tm := decreaseTm(tm, 'Y');
    }

    /** Moves the view one period forward, but not past 2060. */
    method IncreaseDate(increaseTm: (Tm, char) -> Tm)
      modifies this`tm
      ensures tm == StepForward(old(tm), viewType, increaseTm)
    {
      match viewType
      case Day =>
        if tm.year == LastYear && tm.mon == December && tm.mday == LastDayOfDecember {
          return;
        }
        tm := increaseTm(tm, 'D');
      case Month =>
        if tm.year == LastYear && tm.mon == December {
          return;
        }
        tm := increaseTm(tm, 'M');
      case Year =>
        if tm.year == LastYear {
          return;
        }
        tm := increaseTm(tm, 'Y');
    }

    /** The entries of the period picker, with the period in use ticked. */
    method CreatePeriodPicker() returns (entries: seq<PickerEntry>)
      ensures |entries| == 3
      ensures forall i :: 0 <= i < |entries| ==> (entries[i].ticked <==> entries[i].period == viewType)
      ensures entries == PeriodEntries(viewType)
    {
      entries := [PickerEntry(Day, viewType == Day)];
      entries := entries + [PickerEntry(Month, viewType == Month)];
      entries := entries + [PickerEntry(Year, viewType == Year)];
    }

    /** The picker's Day entry; `now` is the current time. */
    method PickDay(now: Tm)
      modifies this`tm, this`viewType
      ensures CurrentView() == Select(old(CurrentView()), Day, now)
    {
      if viewType != Day {
        // Show today if it lies in the viewed period.
        if (viewType == Year && tm.year == now.year)
           || (viewType == Month && tm.mon == now.mon && tm.year == now.year)
        {
          tm := tm.(mon := now.mon);
          tm := tm.(mday := now.mday);
        }
        viewType := Day;
      }
    }

    /** The picker's Month entry; `now` is the current time. */
    method PickMonth(now: Tm)
      modifies this`tm, this`viewType
      ensures CurrentView() == Select(old(CurrentView()), Month, now)
    {
      if viewType != Month {
        // Show this month if it lies in the viewed year.
        if viewType == Year && tm.year == now.year {
          tm := tm.(mon := now.mon);
        }
        tm := tm.(mday := 1);
        viewType := Month;
      }
    }

    /** The picker's Year entry. */
    method PickYear()
      modifies this`tm, this`viewType
      ensures forall now :: CurrentView() == Select(old(CurrentView()), Year, now)
    {
      if viewType != Year {
        tm := tm.(mon := January);
        tm := tm.(mday := 1);
        viewType := Year;
      }
    }

    /** The viewed date. */
    method Time() returns (t: Tm)
      ensures t == tm
    {
      t := tm;
    }

    /** The period the date is viewed by. */
    method Period() returns (v: ViewPeriod)
      ensures v == viewType
    {
      v := viewType;
    }

    /** Whether the date (as `areDifferentDates` judges) or the period
        has changed since the last call; takes a new snapshot. */
    method TimeChanged(areDifferentDates: (Tm, Tm) -> bool) returns (b: bool)
      modifies this`tmCopy, this`viewTypeCopy
      ensures b == (areDifferentDates(tm, old(tmCopy)) || viewType != old(viewTypeCopy))
      ensures tmCopy == tm && viewTypeCopy == viewType
    {
      b := areDifferentDates(tm, tmCopy);
      if !b {
        b := viewType != viewTypeCopy;
      }
      tmCopy := tm;
      viewTypeCopy := viewType;
    }

    /** One iteration of the main loop: advances the rebuild countdown and,
        when it fires, recreates the screens and shows the same screen again. */
    method LoopIteration() returns (r: Rebuild)
      modifies this`reinitState, this`createReason, this`screen
      ensures Tick(reinitState, r.Rebuilt?) == ReinitStep(old(reinitState))
      ensures screen == old(screen)
      ensures r.Rebuilt? ==> r.settingsReason == old(createReason) && createReason == Normal
      ensures r.NoRebuild? ==> createReason == old(createReason)
    {
      r := NoRebuild;
      if reinitState == Wait {
        reinitState := True;
      } else if reinitState == True {
        reinitState := False;
        var reason := CreateScreens();
        SetScreen(screen);
        r := Rebuilt(reason);
      }
    }

    /** The main loop, for as many iterations as the display keeps running
        without calling back into the application; returns the reasons the
        recreated Settings screens received, one per rebuild. */
    method Run(frames: nat) returns (settingsReasons: seq<ScreenCreate>)
      modifies this`reinitState, this`createReason, this`screen
      ensures Countdown(reinitState, |settingsReasons|) == AfterIterations(old(reinitState), frames)
      ensures settingsReasons == if |settingsReasons| == 0 then [] else [old(createReason)]
      ensures |settingsReasons| == 0 ==> createReason == old(createReason)
      ensures |settingsReasons| > 0 ==> createReason == Normal
      ensures screen == old(screen)
    {
      settingsReasons := [];
      var i := 0;
      while i < frames
        invariant 0 <= i <= frames
        invariant Countdown(reinitState, |settingsReasons|) == AfterIterations(old(reinitState), i)
        invariant settingsReasons == if |settingsReasons| == 0 then [] else [old(createReason)]
        invariant |settingsReasons| == 0 ==> createReason == old(createReason)
        invariant |settingsReasons| > 0 ==> createReason == Normal && reinitState == False
        invariant screen == old(screen)
      {
        var r := LoopIteration();
        if r.Rebuilt? {
          settingsReasons := settingsReasons + [r.settingsReason];
        }
        i := i + 1;
      }
    }
  }
}
