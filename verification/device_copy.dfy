/**
 * Copies between guest memory and device memory through a mapping. The host's view of
 * a mapped range and the device's bytes are separate, and only a flush or an
 * invalidation of that range carries bytes from one to the other.
 */
module DeviceCopy {
  import opened Results
  import opened Delivery

  const WHOLE_SIZE: nat := U64 - 1

  datatype Region = Region(memoryIndex: nat, guestAddress: nat, deviceOffset: nat, size: nat)

  datatype MapEvent = Map(usable: bool) | Flush | Invalidate | Unmap

  /**
   * The driver's part in one copy: the map call's status and whether its pointer is
   * usable, what the host happens to see in the range, and the status of the
   * flush or invalidation, which moves the bytes only when it succeeds.
   */
  datatype Driver = Driver(mapStatus: int, nonNull: bool, stale: nat -> Byte, syncStatus: int)

  datatype State = State(guests: map<nat, seq<Byte>>, device: seq<Byte>, trace: seq<MapEvent>)

  function GuestRead(guests: map<nat, seq<Byte>>, index: nat, address: nat, size: nat): Option<seq<Byte>> {
    if size == 0 then Some([]) else if index in guests then PlainRead(guests[index], address, size) else None
  }

  /** Stores the first size bytes of a source that holds as many whenever the range fits. */
  function GuestWrite(guests: map<nat, seq<Byte>>, index: nat, address: nat, source: seq<Byte>,
          size: nat): Option<map<nat, seq<Byte>>>
    requires index in guests && size <= |guests[index]| ==> size <= |source|
  {
    if size == 0 then Some(guests)
    else if index !in guests || address + size > |guests[index]| then None
    else Some(guests[index := Splice(guests[index], address, source[..size])])
  }

  /** How many bytes a mapping shows. */
  function Room(device: seq<Byte>, region: Region): int {
    if region.size == WHOLE_SIZE then |device| - region.deviceOffset else region.size
  }

  predicate Mapped(driver: Driver) {
    driver.mapStatus == SUCCESS && driver.nonNull
  }

  /** Drivers map only ranges of the allocation, and no guest memory is as long as the whole-size marker. */
  ghost predicate Usable(s: State, region: Region, driver: Driver) {
    && region.size < U64
    && (Mapped(driver) ==> region.deviceOffset + Room(s.device, region) <= |s.device| && 0 <= Room(s.device, region))
    && forall i :: i in s.guests ==> |s.guests[i]| < WHOLE_SIZE
  }

  function MapEvents(driver: Driver): seq<MapEvent> {
    if driver.mapStatus == SUCCESS then [Map(driver.nonNull)] else []
  }

  function MapFailure(driver: Driver): int {
    if driver.mapStatus == SUCCESS then ERROR_MEMORY_MAP_FAILED else driver.mapStatus
  }

  /** The calls of one copy: a usable mapping is always undone, and synchronised if there is anything to move. */
  function Events(s: State, toDevice: bool, region: Region, driver: Driver): seq<MapEvent> {
    if !Mapped(driver) then MapEvents(driver)
    else if !toDevice then [Map(true), Invalidate, Unmap]
    else if GuestRead(s.guests, region.memoryIndex, region.guestAddress, region.size).Some? then
      [Map(true), Flush, Unmap]
    else [Map(true), Unmap]
  }

  function Upload(s: State, region: Region, driver: Driver): (int, State)
    requires Usable(s, region, driver)
  {
    var done := s.(trace := s.trace + Events(s, true, region, driver));
    if !Mapped(driver) then (MapFailure(driver), done)
    else
      match GuestRead(s.guests, region.memoryIndex, region.guestAddress, region.size)
      case None => (ERROR_GUEST_MEMORY, done)
      case Some(bytes) =>
        if driver.syncStatus != SUCCESS then (driver.syncStatus, done)
        else (SUCCESS, done.(device := Splice(s.device, region.deviceOffset, bytes)))
  }

  function Download(s: State, region: Region, driver: Driver): (int, State)
    requires Usable(s, region, driver)
  {
    var done := s.(trace := s.trace + Events(s, false, region, driver));
    if !Mapped(driver) then (MapFailure(driver), done)
    else if driver.syncStatus != SUCCESS then (driver.syncStatus, done)
    else
      match GuestWrite(s.guests, region.memoryIndex, region.guestAddress,
                       s.device[region.deviceOffset..region.deviceOffset + Room(s.device, region)], region.size)
      case None => (ERROR_GUEST_MEMORY, done)
      case Some(guests) => (SUCCESS, done.(guests := guests))
  }

  function Copied(s: State, toDevice: bool, region: Region, driver: Driver): (int, State)
    requires Usable(s, region, driver)
  {
    if toDevice then Upload(s, region, driver) else Download(s, region, driver)
  }

  class CopyContext {
    var guests: map<nat, seq<Byte>>
    var device: seq<Byte>
    var trace: seq<MapEvent>

    function Now(): State
      reads this
    {
      State(guests, device, trace)
    }

    /** What the host sees in the mapped range before anything moves there. */
    method MapMemory(region: Region, driver: Driver) returns (result: int, window: Option<seq<Byte>>)
      requires Usable(Now(), region, driver)
      modifies `trace
      ensures result == driver.mapStatus && trace == old(trace) + MapEvents(driver)
      ensures window.Some? ==> Mapped(driver) && |window.value| == Room(device, region)
      ensures result == SUCCESS ==> (window.Some? <==> driver.nonNull)
    {
      result, window := driver.mapStatus, None;
      trace := trace + MapEvents(driver);
      if Mapped(driver) {
        window := Some(seq(Room(device, region), i => if i >= 0 then driver.stale(i) else 0));
      }
    }

    method FlushMappedMemory(region: Region, window: seq<Byte>, driver: Driver) returns (result: int)
      requires region.deviceOffset + |window| <= |device|
      modifies `trace, `device
      ensures result == driver.syncStatus && trace == old(trace) + [Flush]
      ensures device == if result == SUCCESS then Splice(old(device), region.deviceOffset, window) else old(device)
    {
      result := driver.syncStatus;
      trace := trace + [Flush];
      if result == SUCCESS {
        device := Splice(device, region.deviceOffset, window);
      }
    }

    method InvalidateMappedMemory(region: Region, window: seq<Byte>, driver: Driver)
      returns (result: int, seen: seq<Byte>)
      requires region.deviceOffset + |window| <= |device|
      modifies `trace
      ensures result == driver.syncStatus && trace == old(trace) + [Invalidate]
      ensures seen == if result == SUCCESS then device[region.deviceOffset..region.deviceOffset + |window|] else window
    {
      result, seen := driver.syncStatus, window;
      trace := trace + [Invalidate];
      if result == SUCCESS {
        seen := device[region.deviceOffset..region.deviceOffset + |window|];
      }
    }

    method UnmapMemory()
      modifies `trace
      ensures trace == old(trace) + [Unmap]
    {
      trace := trace + [Unmap];
    }

    method CopyBetweenGuestAndMappedMemory(toDevice: bool, region: Region, driver: Driver) returns (result: int)
      requires Usable(Now(), region, driver)
      modifies this
      ensures (result, Now()) == Copied(old(Now()), toDevice, region, driver)
    {
      var window: Option<seq<Byte>>;
      result, window := MapMemory(region, driver);
      if result != SUCCESS || window.None? {
        return if result == SUCCESS then ERROR_MEMORY_MAP_FAILED else result;
      }
      if toDevice {
        var bytes := GuestRead(guests, region.memoryIndex, region.guestAddress, region.size);
        if bytes.None? {
          UnmapMemory();
          assert trace == old(trace) + [Map(true), Unmap];
          return ERROR_GUEST_MEMORY;
        }
        result := FlushMappedMemory(region, bytes.value, driver);
        UnmapMemory();
        assert trace == old(trace) + [Map(true), Flush, Unmap];
        return;
      }
      var seen: seq<Byte>;
      result, seen := InvalidateMappedMemory(region, window.value, driver);
      assert trace + [Unmap] == old(trace) + [Map(true), Invalidate, Unmap];
      if result != SUCCESS {
        UnmapMemory();
        return;
      }
      var written := GuestWrite(guests, region.memoryIndex, region.guestAddress, seen, region.size);
      if written.None? {
        UnmapMemory();
        return ERROR_GUEST_MEMORY;
      }
      guests := written.value;
      UnmapMemory();
      result := SUCCESS;
    }
  }

  // ---- Mappings ---------------------------------------------------------------------------

  /** Memory is mapped only while unmapped, and synchronised and unmapped only while mapped. */
  function Track(mapped: bool, event: MapEvent): Option<bool> {
    match event
    case Map(usable) => if mapped then None else Some(usable)
    case Unmap => if mapped then Some(false) else None
    case _ => if mapped then Some(true) else None
  }

  /** Whether the memory is mapped after the events; None where one was out of place. */
  function Tracked(trace: seq<MapEvent>): Option<bool> {
    if trace == [] then Some(false)
    else
      match Tracked(trace[..|trace| - 1])
      case Some(mapped) => Track(mapped, trace[|trace| - 1])
      case None => None
  }

  lemma TrackedSnoc(trace: seq<MapEvent>, event: MapEvent)
    requires Tracked(trace).Some?
    ensures Tracked(trace + [event]) == Track(Tracked(trace).value, event)
  {
    assert (trace + [event])[..|trace|] == trace;
  }

  datatype Copy = Copy(toDevice: bool, region: Region, driver: Driver)

  ghost predicate RunUsable(s: State, copies: seq<Copy>)
    decreases |copies|, 0
  {
    copies != [] ==>
      && RunUsable(s, copies[..|copies| - 1])
      && Usable(RunCopies(s, copies[..|copies| - 1]), copies[|copies| - 1].region, copies[|copies| - 1].driver)
  }

  ghost function RunCopies(s: State, copies: seq<Copy>): State
    requires RunUsable(s, copies)
    decreases |copies|, 1
  {
    if copies == [] then s
    else
      var last := copies[|copies| - 1];
      Copied(RunCopies(s, copies[..|copies| - 1]), last.toDevice, last.region, last.driver).1
  }

  /** A run is its copies one after the other. */
  lemma RunIsCopyByCopy(s: State, copies: seq<Copy>, last: Copy)
    requires RunUsable(s, copies + [last])
    ensures RunUsable(s, copies) && Usable(RunCopies(s, copies), last.region, last.driver)
    ensures RunCopies(s, copies + [last]) == Copied(RunCopies(s, copies), last.toDevice, last.region, last.driver).1
  {
    assert (copies + [last])[..|copies|] == copies;
  }

  lemma BracketTracked(trace: seq<MapEvent>, sync: MapEvent)
    requires Tracked(trace) == Some(false) && (sync == Flush || sync == Invalidate)
    ensures Tracked(trace + [Map(true), sync, Unmap]) == Some(false)
    ensures Tracked(trace + [Map(true), Unmap]) == Some(false)
    ensures Tracked(trace + [Map(false)]) == Some(false)
  {
    var mapped := trace + [Map(true)];
    TrackedSnoc(trace, Map(false));
    TrackedSnoc(trace, Map(true));
    TrackedSnoc(mapped, Unmap);
    TrackedSnoc(mapped, sync);
    TrackedSnoc(mapped + [sync], Unmap);
    assert mapped + [sync] + [Unmap] == trace + [Map(true), sync, Unmap];
    assert mapped + [Unmap] == trace + [Map(true), Unmap];
  }

  /** On every path a copy leaves the memory unmapped, and syncs and unmaps it only while mapped. */
  lemma CopyBalances(s: State, toDevice: bool, region: Region, driver: Driver)
    requires Usable(s, region, driver) && Tracked(s.trace) == Some(false)
    ensures Tracked(Copied(s, toDevice, region, driver).1.trace) == Some(false)
  {
    BracketTracked(s.trace, if toDevice then Flush else Invalidate);
    assert s.trace + [] == s.trace;
    assert Copied(s, toDevice, region, driver).1.trace == s.trace + Events(s, toDevice, region, driver);
  }

  /** In every run each usable mapping is unmapped exactly once, before the next one. */
  lemma {:induction false} RunBalances(s: State, copies: seq<Copy>)
    requires RunUsable(s, copies) && Tracked(s.trace) == Some(false)
    ensures Tracked(RunCopies(s, copies).trace) == Some(false)
  {
    if copies != [] {
      var n := |copies| - 1;
      RunBalances(s, copies[..n]);
      CopyBalances(RunCopies(s, copies[..n]), copies[n].toDevice, copies[n].region, copies[n].driver);
    }
  }

  function Count(trace: seq<MapEvent>, event: MapEvent): nat {
    multiset(trace)[event]
  }

  lemma EventsAppended(s: State, toDevice: bool, region: Region, driver: Driver)
    requires Usable(s, region, driver)
    ensures Copied(s, toDevice, region, driver).1.trace == s.trace + Events(s, toDevice, region, driver)
  {
    hide Events, GuestRead, Usable;
  }

  /** A map that succeeds with a null pointer is not unmapped: map and unmap calls pair up iff there is none. */
  lemma MapsPairUpIff(s: State, toDevice: bool, region: Region, driver: Driver)
    requires Usable(s, region, driver)
    ensures Copied(s, toDevice, region, driver).1.trace == s.trace + Events(s, toDevice, region, driver)
    ensures var events := Events(s, toDevice, region, driver);
      Count(events, Map(true)) + Count(events, Map(false)) == Count(events, Unmap)
      <==> !(driver.mapStatus == SUCCESS && !driver.nonNull)
  {
    EventsAppended(s, toDevice, region, driver);
    hide Copied, GuestRead, Usable;
  }

  // ---- Round trips ----------------------------------------------------------------------------

  /** A guest range, and the device range a region names. */
  predicate InGuest(s: State, region: Region) {
    || region.size == 0
    || (region.memoryIndex in s.guests && region.guestAddress + region.size <= |s.guests[region.memoryIndex]|)
  }

  ghost predicate SameOutside(before: seq<Byte>, after: seq<Byte>, start: nat, size: nat) {
    && |after| == |before|
    && forall i :: 0 <= i < |before| && !(start <= i < start + size) ==> after[i] == before[i]
  }

  /** A successful upload carries the guest's bytes over and touches nothing else. */
  lemma UploadCarries(s: State, region: Region, driver: Driver)
    requires Usable(s, region, driver) && Upload(s, region, driver).0 == SUCCESS
    ensures var after := Upload(s, region, driver).1;
      && InGuest(s, region) && region.deviceOffset + region.size <= |s.device| == |after.device|
      && after.guests == s.guests
      && Some(after.device[region.deviceOffset..region.deviceOffset + region.size])
         == GuestRead(s.guests, region.memoryIndex, region.guestAddress, region.size)
      && SameOutside(s.device, after.device, region.deviceOffset, region.size)
  {
  }

  /** A successful download carries the device's bytes over and touches nothing else. */
  lemma DownloadCarries(s: State, region: Region, driver: Driver)
    requires Usable(s, region, driver) && Download(s, region, driver).0 == SUCCESS
    ensures var after := Download(s, region, driver).1;
      && InGuest(s, region) && region.deviceOffset + region.size <= |s.device|
      && after.device == s.device && after.guests.Keys == s.guests.Keys
      && Some(s.device[region.deviceOffset..region.deviceOffset + region.size])
         == GuestRead(after.guests, region.memoryIndex, region.guestAddress, region.size)
      && forall m :: m in s.guests ==>
           var changed := if m == region.memoryIndex then region.size else 0;
           SameOutside(s.guests[m], after.guests[m], region.guestAddress, changed)
  {
    var after := Download(s, region, driver).1;
    if region.size > 0 {
      assert region.size < WHOLE_SIZE;
      var bytes := s.device[region.deviceOffset..region.deviceOffset + region.size];
      var mem := s.guests[region.memoryIndex];
      assert after.guests == s.guests[region.memoryIndex := Splice(mem, region.guestAddress, bytes[..region.size])];
      assert bytes[..region.size] == bytes;
      assert after.guests[region.memoryIndex][region.guestAddress..region.guestAddress + region.size] == bytes;
    } else {
      assert s.device[region.deviceOffset..region.deviceOffset + region.size] == [];
    }
  }

  /**
   * In either direction a copy succeeds iff the range was mapped and synchronised and lies
   * in the guest's memory; so the whole-size marker, which maps to the end of the
   * allocation, is never a length to copy.
   */
  lemma CopySucceedsIff(s: State, toDevice: bool, region: Region, driver: Driver)
    requires Usable(s, region, driver)
    ensures Copied(s, toDevice, region, driver).0 == SUCCESS <==>
            Mapped(driver) && driver.syncStatus == SUCCESS && InGuest(s, region)
    ensures region.size == WHOLE_SIZE ==> Copied(s, toDevice, region, driver).0 != SUCCESS
  {
    assert region.memoryIndex in s.guests ==> |s.guests[region.memoryIndex]| < WHOLE_SIZE;
  }

  /**
   * Why a copy fails, in the order of its steps: the driver's own status comes back, whatever
   * it is; an upload reads the guest before it synchronises, a download writes to it after.
   */
  lemma CopyAnswers(s: State, toDevice: bool, region: Region, driver: Driver)
    requires Usable(s, region, driver)
    ensures var result := Copied(s, toDevice, region, driver).0;
      && (driver.mapStatus != SUCCESS ==> result == driver.mapStatus)
      && (driver.mapStatus == SUCCESS && !driver.nonNull ==> result == ERROR_MEMORY_MAP_FAILED)
      && (driver.mapStatus == SUCCESS && driver.nonNull ==>
            && (toDevice && !InGuest(s, region) ==> result == ERROR_GUEST_MEMORY)
            && ((toDevice ==> InGuest(s, region)) && driver.syncStatus != SUCCESS ==> result == driver.syncStatus)
            && (!InGuest(s, region) && driver.syncStatus == SUCCESS ==> result == ERROR_GUEST_MEMORY))
  {
  }

  /** The mapping calls of a copy: a flush for bytes on their way up, an invalidation for bytes to come down. */
  lemma CopyCalls(s: State, toDevice: bool, region: Region, driver: Driver)
    requires Usable(s, region, driver)
    ensures var after := Copied(s, toDevice, region, driver).1.trace;
      && s.trace <= after
      && var calls := after[|s.trace|..];
      if driver.mapStatus != SUCCESS then calls == []
      else if !driver.nonNull then calls == [Map(false)]
      else
        && |calls| == (if toDevice && !InGuest(s, region) then 2 else 3)
        && calls[0] == Map(true) && calls[|calls| - 1] == Unmap
        && (|calls| == 3 ==> calls[1] == if toDevice then Flush else Invalidate)
  {
    EventsAppended(s, toDevice, region, driver);
    hide Copied;
  }

  /** A failed copy changes no guest and no device byte. */
  lemma FailureChangesNothing(s: State, toDevice: bool, region: Region, driver: Driver)
    requires Usable(s, region, driver) && Copied(s, toDevice, region, driver).0 != SUCCESS
    ensures var after := Copied(s, toDevice, region, driver).1; after.guests == s.guests && after.device == s.device
  {
  }

  /** No upload of the run writes to the device range. */
  ghost predicate LeavesRange(copies: seq<Copy>, offset: nat, size: nat) {
    forall c :: c in copies && c.toDevice ==>
      c.region.deviceOffset + c.region.size <= offset || offset + size <= c.region.deviceOffset
  }

  lemma CopyLeavesRange(s: State, c: Copy, offset: nat, size: nat)
    requires Usable(s, c.region, c.driver) && LeavesRange([c], offset, size) && offset + size <= |s.device|
    ensures var after := Copied(s, c.toDevice, c.region, c.driver).1;
      |after.device| == |s.device| && after.device[offset..offset + size] == s.device[offset..offset + size]
  {
    assert c in [c];
    var after := Copied(s, c.toDevice, c.region, c.driver).1;
    if c.toDevice && Upload(s, c.region, c.driver).0 == SUCCESS {
      UploadCarries(s, c.region, c.driver);
    }
  }

  lemma {:induction false} RunLeavesRange(s: State, copies: seq<Copy>, offset: nat, size: nat)
    requires RunUsable(s, copies) && LeavesRange(copies, offset, size) && offset + size <= |s.device|
    ensures var after := RunCopies(s, copies);
      |after.device| == |s.device| && after.device[offset..offset + size] == s.device[offset..offset + size]
  {
    if copies != [] {
      var n := |copies| - 1;
      RunLeavesRange(s, copies[..n], offset, size);
      CopyLeavesRange(RunCopies(s, copies[..n]), copies[n], offset, size);
    }
  }

  /**
   * What went up comes down: after an upload, any run of copies that does not upload over
   * the range, and a download of the same device range, the guest holds what it uploaded.
   */
  lemma RoundTrip(s: State, up: Region, upDriver: Driver, between: seq<Copy>, down: Region, downDriver: Driver)
    requires Usable(s, up, upDriver) && Upload(s, up, upDriver).0 == SUCCESS
    requires RunUsable(Upload(s, up, upDriver).1, between) && LeavesRange(between, up.deviceOffset, up.size)
    requires var later := RunCopies(Upload(s, up, upDriver).1, between);
      && Usable(later, down, downDriver) && Download(later, down, downDriver).0 == SUCCESS
      && down.deviceOffset == up.deviceOffset && down.size == up.size
    ensures var later := RunCopies(Upload(s, up, upDriver).1, between);
      GuestRead(Download(later, down, downDriver).1.guests, down.memoryIndex, down.guestAddress, down.size)
      == GuestRead(s.guests, up.memoryIndex, up.guestAddress, up.size)
  {
    hide Upload, Download, GuestRead, Usable, LeavesRange, RunUsable, RunCopies, SameOutside, InGuest;
    UploadCarries(s, up, upDriver);
    RunLeavesRange(Upload(s, up, upDriver).1, between, up.deviceOffset, up.size);
    DownloadCarries(RunCopies(Upload(s, up, upDriver).1, between), down, downDriver);
  }
}
