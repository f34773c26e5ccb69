/** The accessor over the host's descriptors, callbacks and mapped views. */
module GuestMemory {
  import opened Results
  import opened Delivery

  /** The atomic length object of a dynamically bounded memory. */
  class LengthCell {
    var length: nat

    constructor (length: nat)
      ensures this.length == length
    {
      this.length := length;
    }
  }

  datatype Descriptor = Descriptor(
    memoryIndex: nat,
    deliveryState: nat,
    byteLength: nat,
    partialLimit: nat,
    mmapView: array?<Byte>,
    dynamicLength: LengthCell?)

  /** The preload host API: which entry points it has, its descriptors, and the bytes behind its callbacks. */
  class HostApi {
    const hasCount: bool
    const hasAt: bool
    const hasRead: bool
    const hasWrite: bool
    var descriptors: seq<Option<Descriptor>>     // None where memory_descriptor_at fails
    var copied: map<nat, array<Byte>>            // per memory index, what memory_read and memory_write reach

    constructor (hasCount: bool, hasAt: bool, hasRead: bool, hasWrite: bool,
                 descriptors: seq<Option<Descriptor>>, copied: map<nat, array<Byte>>)
      ensures this.hasCount == hasCount && this.hasAt == hasAt && this.hasRead == hasRead && this.hasWrite == hasWrite
      ensures this.descriptors == descriptors && this.copied == copied
    {
      this.hasCount, this.hasAt, this.hasRead, this.hasWrite := hasCount, hasAt, hasRead, hasWrite;
      this.descriptors, this.copied := descriptors, copied;
    }

    /** A bounded host callback: it copies exactly when the range is inside the memory. */
    method MemoryRead(index: nat, address: nat, destination: array<Byte>, size: nat) returns (ok: bool)
      requires size <= destination.Length && (index in copied ==> copied[index] != destination)
      modifies destination
      ensures ok <==> index in copied && address + size <= copied[index].Length
      ensures ok ==> destination[..size] == copied[index][address..address + size]
      ensures !ok ==> destination[..] == old(destination[..])
      ensures destination[size..] == old(destination[size..])
    {
      ok := index in copied && address + size <= copied[index].Length;
      if ok {
        var source := copied[index];
        forall i | 0 <= i < size {
          destination[i] := source[address + i];
        }
      }
    }

    method MemoryWrite(index: nat, address: nat, source: seq<Byte>) returns (ok: bool)
      modifies if index in copied then {copied[index]} else {}
      ensures ok <==> index in copied && address + |source| <= copied[index].Length
      ensures index in copied ==>
        copied[index][..] == if ok then Splice(old(copied[index][..]), address, source) else old(copied[index][..])
    {
      ok := index in copied && address + |source| <= copied[index].Length;
      if ok {
        var target := copied[index];
        forall i | 0 <= i < |source| {
          target[address + i] := source[i];
        }
      }
    }
  }

  predicate Matches(descriptor: Option<Descriptor>, index: nat) {
    descriptor.Some? && descriptor.value.memoryIndex == index
  }

  /** Position of the first readable descriptor of an index. */
  function FirstMatch(descriptors: seq<Option<Descriptor>>, index: nat): (k: Option<nat>)
    ensures k.Some? ==>
      && k.value < |descriptors| && Matches(descriptors[k.value], index)
      && forall j :: 0 <= j < k.value ==> !Matches(descriptors[j], index)
    ensures k.None? ==> forall j :: 0 <= j < |descriptors| ==> !Matches(descriptors[j], index)
  {
    if descriptors == [] then None
    else if Matches(descriptors[0], index) then Some(0)
    else
      match FirstMatch(descriptors[1..], index)
      case Some(k) => Some(k + 1)
      case None =>
        assert descriptors == [descriptors[0]] + descriptors[1..];
        None
  }

  /** What the accessor sees of a descriptor now. */
  function ViewOf(host: HostApi, d: Descriptor): View
    reads host, if d.dynamicLength != null then {d.dynamicLength} else {}
  {
    View(d.deliveryState, d.byteLength, d.partialLimit, d.mmapView != null,
         if d.dynamicLength != null then Some(d.dynamicLength.length) else None,
         if d.memoryIndex in host.copied then host.copied[d.memoryIndex].Length else 0)
  }

  /** The bytes an access through the descriptor reaches. */
  function BytesOf(host: HostApi, d: Descriptor): seq<Byte>
    reads host
    reads if d.deliveryState == DELIVERY_COPY
          then (if d.memoryIndex in host.copied then {host.copied[d.memoryIndex]} else {})
          else (if d.mmapView != null then {d.mmapView} else {})
  {
    if d.deliveryState == DELIVERY_COPY then
      (if d.memoryIndex in host.copied then host.copied[d.memoryIndex][..] else [])
    else if d.mmapView != null then d.mmapView[..] else []
  }

  /**
   * The host keeps its side: lengths fit, and a mapped view, or what the callbacks reach,
   * holds as many bytes as the descriptor promises.
   */
  ghost predicate Keeps(host: HostApi, d: Descriptor)
    reads host
    reads if d.dynamicLength != null then {d.dynamicLength} else {}
  {
    && d.byteLength < U64 && d.partialLimit < U64 && (d.dynamicLength != null ==> d.dynamicLength.length < U64)
    && (d.memoryIndex in host.copied ==> host.copied[d.memoryIndex].Length < U64)
    && (d.deliveryState == DELIVERY_COPY ==> d.memoryIndex in host.copied)
    && (d.mmapView != null ==>
          && (d.deliveryState == DELIVERY_MMAP_FULL_PROTECTION ==> d.byteLength <= d.mmapView.Length)
          && (d.deliveryState == DELIVERY_MMAP_PARTIAL_PROTECTION ==>
                d.byteLength <= d.mmapView.Length && d.partialLimit <= d.mmapView.Length)
          && (d.deliveryState == DELIVERY_MMAP_DYNAMIC_BOUNDS && d.dynamicLength != null ==>
                d.dynamicLength.length <= d.mmapView.Length))
  }

  /** Which ranges a descriptor lets through, field by field and over unbounded integers. */
  predicate Reaches(host: HostApi, d: Descriptor, address: nat, size: nat)
    reads host
    reads if d.dynamicLength != null then {d.dynamicLength} else {}
  {
    var end := address + size;
    if d.deliveryState == DELIVERY_COPY then
      d.memoryIndex in host.copied && end <= host.copied[d.memoryIndex].Length
    else if d.mmapView == null then false
    else if d.deliveryState == DELIVERY_MMAP_FULL_PROTECTION then end <= d.byteLength
    else if d.deliveryState == DELIVERY_MMAP_PARTIAL_PROTECTION then end <= d.partialLimit || end <= d.byteLength
    else if d.deliveryState == DELIVERY_MMAP_DYNAMIC_BOUNDS then
      d.dynamicLength != null && end <= d.dynamicLength.length
    else false
  }

  lemma ReachedIsStored(host: HostApi, d: Descriptor, address: nat, size: nat)
    requires Keeps(host, d) && Reaches(host, d, address, size)
    ensures address + size <= |BytesOf(host, d)|
  {
  }

  /** The checks on the view of a descriptor are the conditions on its fields. */
  lemma AcceptsIffReaches(host: HostApi, d: Descriptor, address: nat, size: nat)
    requires Keeps(host, d)
    ensures Sized(ViewOf(host, d))
    ensures Accepts(ViewOf(host, d), address, size) <==> Reaches(host, d, address, size)
  {
    RangeCheckIsExact(d.byteLength, address, size);
    RangeCheckIsExact(d.partialLimit, address, size);
    if d.dynamicLength != null {
      RangeCheckIsExact(d.dynamicLength.length, address, size);
    }
  }

  /** The descriptor stands for a memory that holds exactly mem. */
  ghost predicate StandsFor(host: HostApi, d: Descriptor, mem: seq<Byte>)
    reads host
    reads if d.dynamicLength != null then {d.dynamicLength} else {}
    reads if d.deliveryState == DELIVERY_COPY
          then (if d.memoryIndex in host.copied then {host.copied[d.memoryIndex]} else {})
          else (if d.mmapView != null then {d.mmapView} else {})
  {
    && Keeps(host, d) && mem <= BytesOf(host, d)
    && (d.deliveryState == DELIVERY_COPY || d.mmapView != null)
    && (|| (d.deliveryState == DELIVERY_COPY && host.copied[d.memoryIndex].Length == |mem|)
        || (d.deliveryState == DELIVERY_MMAP_FULL_PROTECTION && d.byteLength == |mem|)
        || (d.deliveryState == DELIVERY_MMAP_PARTIAL_PROTECTION && d.partialLimit <= d.byteLength == |mem|)
        || (d.deliveryState == DELIVERY_MMAP_DYNAMIC_BOUNDS && d.dynamicLength != null
            && d.dynamicLength.length == |mem|))
  }

  /**
   * Whatever its mode, such a descriptor presents that memory: any sequence of accesses through
   * it is one on plain bytes (DeliveryRefinesPlainMemory), and it lets through exactly what fits.
   */
  lemma DescriptorPresents(host: HostApi, d: Descriptor, mem: seq<Byte>, address: nat, size: nat)
    requires StandsFor(host, d, mem)
    ensures Presents(ViewOf(host, d), BytesOf(host, d), mem)
    ensures Reaches(host, d, address, size) <==> address + size <= |mem|
    ensures address + size <= |mem| ==> PlainRead(BytesOf(host, d), address, size) == PlainRead(mem, address, size)
  {
    AcceptsIffReaches(host, d, address, size);
    if address + size <= |mem| {
      SliceBegins(BytesOf(host, d), mem, address, size);
    }
  }

  class GuestMemoryAccessor {
    var hostApi: HostApi?

    constructor ()
      ensures hostApi == null
    {
      hostApi := null;
    }

    method SetHostApi(host: HostApi?)
      modifies `hostApi
      ensures hostApi == host
    {
      hostApi := host;
    }

    /** The descriptor an access of this index goes through. */
    function Selected(index: nat): Option<Descriptor>
      reads this, if hostApi != null then {hostApi} else {}
    {
      if hostApi == null || !hostApi.hasCount || !hostApi.hasAt then None
      else
        match FirstMatch(hostApi.descriptors, index)
        case Some(k) => hostApi.descriptors[k]
        case None => None
    }

    method FindDescriptor(index: nat) returns (r: Option<Descriptor>)
      ensures r == Selected(index)
      ensures r.Some? ==> hostApi != null && hostApi.hasCount && hostApi.hasAt && r.value.memoryIndex == index
      ensures r.Some? ==> exists k ::
                && 0 <= k < |hostApi.descriptors| && hostApi.descriptors[k] == r
                && forall j :: 0 <= j < k && hostApi.descriptors[j].Some? ==>
                  hostApi.descriptors[j].value.memoryIndex != index
      ensures r.None? && hostApi != null && hostApi.hasCount && hostApi.hasAt ==>
                forall j :: 0 <= j < |hostApi.descriptors| && hostApi.descriptors[j].Some? ==>
                  hostApi.descriptors[j].value.memoryIndex != index
    {
      if hostApi == null || !hostApi.hasCount || !hostApi.hasAt {
        return None;
      }
      var all := hostApi.descriptors;
      var i := 0;
      while i != |all|
        invariant 0 <= i <= |all|
        invariant forall j :: 0 <= j < i ==> !Matches(all[j], index)
      {
        if Matches(all[i], index) {
          return all[i];
        }
        i := i + 1;
      }
      r := None;
    }

    /** Copies guest bytes out; nothing but the first size bytes of the destination ever changes. */
    method Read(index: nat, address: nat, destination: array?<Byte>, size: nat) returns (ok: bool)
      requires destination != null ==> size <= destination.Length
      requires Selected(index).Some? ==> Keeps(hostApi, Selected(index).value)
      requires Selected(index).Some? && destination != null ==>
                 destination != Selected(index).value.mmapView
                 && (index in hostApi.copied ==> destination != hostApi.copied[index])
      modifies if destination != null then {destination} else {}
      ensures size == 0 ==> ok
      ensures size > 0 ==> (ok <==>
                && destination != null && old(Selected(index)).Some?
                && (old(Selected(index)).value.deliveryState == DELIVERY_COPY ==> hostApi.hasRead)
                && old(Reaches(hostApi, Selected(index).value, address, size)))
      ensures ok && size > 0 ==>
                Some(destination[..size]) == old(PlainRead(BytesOf(hostApi, Selected(index).value), address, size))
      ensures destination != null ==> destination[size..] == old(destination[size..])
      ensures destination != null && !ok ==> destination[..] == old(destination[..])
    {
      hide FirstMatch, DirectRangeIsValid, Sized;
      if size == 0 {
        return true;
      }
      if destination == null {
        return false;
      }
      var descriptor := FindDescriptor(index);
      if descriptor.None? {
        return false;
      }
      var d := descriptor.value;
      if d.deliveryState == DELIVERY_COPY {
        ok := false;
        if hostApi.hasRead {
          ok := hostApi.MemoryRead(index, address, destination, size);
        }
      } else {
        AcceptsIffReaches(hostApi, d, address, size);
        ok := d.mmapView != null && DirectRangeIsValid(ViewOf(hostApi, d), address, size);
        if ok {
          ReachedIsStored(hostApi, d, address, size);
          forall i | 0 <= i < size {
            destination[i] := d.mmapView[address + i];
          }
          assert destination[..size] == old(d.mmapView[..])[address..address + size];
        }
      }
    }

    /** Stores bytes in guest memory; an accepted write changes its own range and nothing else. */
    method Write(index: nat, address: nat, source: Option<seq<Byte>>, size: nat) returns (ok: bool)
      requires source.Some? ==> |source.value| == size
      requires Selected(index).Some? ==> Keeps(hostApi, Selected(index).value)
      modifies
        if Selected(index).Some? && Selected(index).value.mmapView != null then {Selected(index).value.mmapView} else {}
      modifies if hostApi != null && index in hostApi.copied then {hostApi.copied[index]} else {}
      ensures Selected(index) == old(Selected(index))
      ensures size == 0 ==> ok
      ensures size > 0 ==> (ok <==>
                && source.Some? && Selected(index).Some?
                && (Selected(index).value.deliveryState == DELIVERY_COPY ==> hostApi.hasWrite)
                && old(Reaches(hostApi, Selected(index).value, address, size)))
      ensures Selected(index).Some? ==>
                Some(BytesOf(hostApi, Selected(index).value)) ==
                if ok && size > 0 then
                  old(PlainWrite(BytesOf(hostApi, Selected(index).value), address, source.value))
                else Some(old(BytesOf(hostApi, Selected(index).value)))
      ensures hostApi != null && index in hostApi.copied
              && (Selected(index).None? || (Selected(index).value.deliveryState != DELIVERY_COPY
                                            && Selected(index).value.mmapView != hostApi.copied[index])) ==>
                hostApi.copied[index][..] == old(hostApi.copied[index][..])
      ensures Selected(index).Some? && Selected(index).value.mmapView != null
              && Selected(index).value.deliveryState == DELIVERY_COPY
              && (index in hostApi.copied ==> Selected(index).value.mmapView != hostApi.copied[index]) ==>
                Selected(index).value.mmapView[..] == old(Selected(index).value.mmapView[..])
    {
      hide FirstMatch, DirectRangeIsValid, Sized;
      if size == 0 {
        return true;
      }
      if source.None? {
        return false;
      }
      var descriptor := FindDescriptor(index);
      if descriptor.None? {
        return false;
      }
      var d := descriptor.value;
      if d.deliveryState == DELIVERY_COPY {
        ok := false;
        if hostApi.hasWrite {
          ok := hostApi.MemoryWrite(index, address, source.value);
        }
      } else {
        AcceptsIffReaches(hostApi, d, address, size);
        ok := d.mmapView != null && DirectRangeIsValid(ViewOf(hostApi, d), address, size);
        if ok {
          ReachedIsStored(hostApi, d, address, size);
          var view := d.mmapView;
          forall i | 0 <= i < size {
            view[address + i] := source.value[i];
          }
          assert view[..] == Splice(old(view[..]), address, source.value);
        }
      }
    }

    /** A failed read leaves size zero bytes in the string. */
    method ReadString(index: nat, address: nat, size: nat) returns (ok: bool, text: seq<Byte>)
      requires Selected(index).Some? ==> Keeps(hostApi, Selected(index).value)
      ensures |text| == size && (size == 0 ==> ok)
      ensures size > 0 ==> (ok <==>
                && Selected(index).Some? && (Selected(index).value.deliveryState == DELIVERY_COPY ==> hostApi.hasRead)
                && Reaches(hostApi, Selected(index).value, address, size))
      ensures ok && size > 0 ==> Some(text) == PlainRead(BytesOf(hostApi, Selected(index).value), address, size)
      ensures !ok ==> forall i :: 0 <= i < size ==> text[i] == 0
    {
      hide FirstMatch, DirectRangeIsValid, Sized;
      if size == 0 {
        return true, [];
      }
      var buffer := new Byte[size](_ => 0);
      ok := Read(index, address, buffer, size);
      text := buffer[..];
      assert buffer[..size] == text;
    }
  }
}
