/** From the guest's side: the handles it reads back after a call lead to the objects the driver gave. */
module GuestViews {
  import opened Results
  import opened HandleTables
  import opened Registries
  import opened Delivery
  import opened GuestBlocks
  import opened HandleArrays
  import opened Lifecycle
  import opened Answers
  import opened Admissions
  import Enumeration

  lemma SuccessReaches(w: World, req: Request)
    requires Step(w, req).result == SUCCESS
    ensures Reaches(w, req) && !Ends(req) && Completion(req) == SUCCESS
  {
    hide Step, ArgumentsGood, InputRead, NamesStand;
    Refuses(w, req);
    AnswersReachGuest(w, req);
  }

  lemma WordReadsBack(before: seq<Byte>, after: seq<Byte>, out: nat, h: Handle)
    requires PlainWrite(before, out, Le(h, HANDLE_SIZE)) == Some(after) && h < U64
    ensures InBounds(after, out, HANDLE_SIZE) && U64At(after, out) == h
  {
    Field64Reads(after, out, h);
  }

  /** A creator's or a queue's handle, as the guest finds it at its out address, names that object's record. */
  lemma GuestFindsObject(w: World, req: Request, before: seq<Byte>, after: seq<Byte>, out: nat)
    requires Counted(w.reg) && InRange(w, req) && Admits(req) && |req.env.natives| == 1
    requires Step(w, req).result == SUCCESS
    requires PlainWrite(before, out, Le(Next(w.reg, AdmittedKind(req)), HANDLE_SIZE)) == Some(after)
    ensures InBounds(after, out, HANDLE_SIZE)
    ensures var key := Key(AdmittedKind(req), U64At(after, out));
      var reg := Step(w, req).world.reg;
      key !in w.reg.records && key in reg.records && RecordsIt(req, reg.records[key])
  {
    hide Step, Reaches, PlainWrite, RecordsIt, U64At, OnlyAdds;
    SuccessReaches(w, req);
    AdmitsIff(w, req);
    NextIsFree(w.reg, AdmittedKind(req));
    WordReadsBack(before, after, out, Next(w.reg, AdmittedKind(req)));
  }

  /** The handle in the j-th place of a guest array. */
  function HandleAt(mem: seq<Byte>, address: nat, j: nat): Handle
    requires InBounds(mem, address + j * HANDLE_SIZE, HANDLE_SIZE)
  {
    U64At(mem, address + j * HANDLE_SIZE)
  }

  lemma MintedRead(after: seq<Byte>, address: nat, first: Handle, n: nat, j: nat)
    requires j < n && first + n < U64 && Enumeration.Holding(after, address, HandleBytes(Minted(first, n)))
    ensures InBounds(after, address + j * HANDLE_SIZE, HANDLE_SIZE) && HandleAt(after, address, j) == first + j
  {
    hide HandleBytes, U64At;
    assert |HandleBytes(Minted(first, n))| == n * HANDLE_SIZE;
    HandleReads(after, address, Minted(first, n), j);
  }

  /** After a successful allocation the j-th handle in the guest's array names the j-th buffer, at the level asked. */
  lemma GuestFindsBuffers(w: World, d: Handle, pool: Handle, level: nat, count: nat, env: Env,
          before: seq<Byte>, after: seq<Byte>, out: nat, j: nat)
    requires Counted(w.reg) && Next(w.reg, CommandBuffer) + |env.natives| < U64
    requires Lifecycle.AllocateCommandBuffers(w, d, pool, level, count, env).result == SUCCESS && j < count
    requires PlainWrite(before, out, HandleBytes(Minted(Next(w.reg, CommandBuffer), count))) == Some(after)
    ensures |env.natives| == count && InBounds(after, out + j * HANDLE_SIZE, HANDLE_SIZE)
    ensures var key := Key(CommandBuffer, HandleAt(after, out, j));
      var reg := Lifecycle.AllocateCommandBuffers(w, d, pool, level, count, env).world.reg;
      && key !in w.reg.records && key in reg.records && reg.records[key].native == env.natives[j]
      && reg.records[key].parent == d && reg.records[key].pool == pool && reg.records[key].word0 == level
  {
    hide HandleBytes, HandleAt, Lifecycle.AllocateCommandBuffers, OneEach, Counted;
    AllocationRecords(w, d, pool, level, count, env);
    OneOfEach(w.reg, CommandBuffer, env.natives, count, d, pool, level,
              Lifecycle.AllocateCommandBuffers(w, d, pool, level, count, env).world.reg, j);
    assert Enumeration.Holding(after, out, HandleBytes(Minted(Next(w.reg, CommandBuffer), count)));
    MintedRead(after, out, Next(w.reg, CommandBuffer), count, j);
  }

  lemma ListReads(mem: seq<Byte>, buffer: nat, capacity: nat, countAt: nat, first: Handle, n: nat, j: nat)
    requires j < n <= capacity < U32 && first + n < U64 && buffer != 0
    requires Enumeration.HandedOver(mem, buffer, capacity, countAt, Encoded(Minted(first, n))).0 != ERROR_GUEST_MEMORY
    requires Enumeration.CellApart(countAt, buffer,
                                   Enumeration.Delivered(buffer, capacity, Encoded(Minted(first, n))))
    ensures var after := Enumeration.HandedOver(mem, buffer, capacity, countAt, Encoded(Minted(first, n))).1;
      && InBounds(after, countAt, 4) && U32At(after, countAt) == n
      && InBounds(after, buffer + j * HANDLE_SIZE, HANDLE_SIZE) && HandleAt(after, buffer, j) == first + j
  {
    hide Enumeration.HandedOver, HandleAt, U64At, U32At, Enumeration.Holding, Enumeration.Flat;
    var values := Encoded(Minted(first, n));
    var after := Enumeration.HandedOver(mem, buffer, capacity, countAt, values).1;
    Enumeration.EnumerationContract(mem, buffer, capacity, countAt, values);
    assert values[..n] == values;
    assert HandleBytes(Minted(first, n)) == Enumeration.Flat(values[..n]);
    MintedRead(after, buffer, first, n, j);
  }

  lemma ShownRecord(w: World, i: Handle, capacity: nat, env: Env, j: nat)
    requires var req := DoEnumeratePhysicalDevices(i, capacity, env);
      Counted(w.reg) && InRange(w, req) && Reaches(w, req) && Answer(req) >= 0
    requires j < Room(capacity, env.natives)
    ensures var key := Key(PhysicalDevice, Next(w.reg, PhysicalDevice) + j);
      var reg := Step(w, DoEnumeratePhysicalDevices(i, capacity, env)).world.reg;
      && key !in w.reg.records && key in reg.records && reg.records[key].parent == i
      && reg.records[key].native == env.natives[j]
  {
    hide Step, Reaches, OneEach, Counted, InRange;
    EnumerationRecords(w, i, capacity, env);
    OneOfEach(w.reg, PhysicalDevice, env.natives, Room(capacity, env.natives), i, 0, 0,
              Step(w, DoEnumeratePhysicalDevices(i, capacity, env)).world.reg, j);
  }

  /** After an enumeration the j-th handle of the guest's buffer names the j-th device the driver found. */
  lemma GuestFindsDevices(w: World, i: Handle, capacity: nat, env: Env,
          mem: seq<Byte>, buffer: nat, countAt: nat, j: nat)
    requires var req := DoEnumeratePhysicalDevices(i, capacity, env);
      Counted(w.reg) && InRange(w, req) && Reaches(w, req) && Answer(req) >= 0
    requires capacity < U32 && buffer != 0 && j < Room(capacity, env.natives)
    requires var values := Encoded(Minted(Next(w.reg, PhysicalDevice), Room(capacity, env.natives)));
      && Enumeration.HandedOver(mem, buffer, capacity, countAt, values).0 != ERROR_GUEST_MEMORY
      && Enumeration.CellApart(countAt, buffer, Enumeration.Delivered(buffer, capacity, values))
    ensures var values := Encoded(Minted(Next(w.reg, PhysicalDevice), Room(capacity, env.natives)));
      var after := Enumeration.HandedOver(mem, buffer, capacity, countAt, values).1;
      && InBounds(after, countAt, 4) && U32At(after, countAt) == Room(capacity, env.natives)
      && InBounds(after, buffer + j * HANDLE_SIZE, HANDLE_SIZE)
      && var key := Key(PhysicalDevice, HandleAt(after, buffer, j));
      var reg := Step(w, DoEnumeratePhysicalDevices(i, capacity, env)).world.reg;
      && key !in w.reg.records && key in reg.records && reg.records[key].parent == i
      && reg.records[key].native == env.natives[j]
  {
    hide Step, Reaches, Enumeration.HandedOver, HandleAt, U64At, U32At, Encoded, Minted, Enumeration.CellApart, Answer;
    hide Enumeration.Delivered, Counted;
    ShownRecord(w, i, capacity, env, j);
    ListReads(mem, buffer, capacity, countAt, Next(w.reg, PhysicalDevice), Room(capacity, env.natives), j);
  }
}
