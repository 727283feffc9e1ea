/** The machine state and its word source (core/context.go): CPU plus memory, with
    instruction words fetched through PC. */
module Context {
  import opened Words
  import opened Errors
  import opened Cpu
  import opened Memory

  /** The `WordLoader` interface: fetch the next word, or fast-forward over `count`
      words. A loader is given by what these two operations do to its state `S`. */
  datatype WordLoader<!S> = WordLoader(
    wordLoad: S -> (Result<Word>, S),
    skipWords: (S, Word) -> (Outcome, S))

  /** The abstract value of a `D16MachineState`: the CPU and the memory. */
  datatype Machine = Machine(cpu: CpuState, mem: MemoryImage)

  /** `D16MachineState.WordLoad`: the word at PC, with PC advanced past it. */
  function MemWordLoad(m: Machine): (r: (Result<Word>, Machine))
  {
    var (address, cpu') := m.cpu.ReadIncPC();
    (Ok(m.mem[address]), m.(cpu := cpu'))
  }

  /** `D16MachineState.SkipWords`: PC moved forward by `count`, modulo 2^16. */
  function MemSkipWords(m: Machine, count: Word): (r: (Outcome, Machine))
  {
    (Pass, m.(cpu := m.cpu.(pc := Wrap(m.cpu.pc + count))))
  }

  /** The machine itself as a word source, as the emulator uses it. */
  const MemLoader: WordLoader<Machine> := WordLoader(MemWordLoad, MemSkipWords)

  /** Fetching and skipping through memory never fail, and change nothing but PC:
      fetching returns `Data[PC]` and advances PC by one, skipping advances it by `count`. */
  lemma MemLoaderOnlyMovesPC(m: Machine, count: Word)
    ensures MemLoader.wordLoad(m) ==
            (Ok(m.mem[m.cpu.pc]), m.(cpu := m.cpu.(pc := (m.cpu.pc + 1) % WordSpan)))
    ensures MemLoader.skipWords(m, count) ==
            (Pass, m.(cpu := m.cpu.(pc := (m.cpu.pc + count) % WordSpan)))
  {
  }

  /** `D16MachineState.Init`: reset the CPU part; memory keeps its contents. */
  function InitMachine(m: Machine): (m': Machine)
    ensures m'.cpu == InitialCpu() && m'.mem == m.mem
  {
    m.(cpu := InitialCpu())
  }

  /** `D16MachineState`: a CPU and a memory, both updated in place. */
  class D16MachineState {
    const cpu: D16CPU
    const memory: D16MemoryState

    ghost predicate Valid()
    {
      cpu.Valid() && memory.Valid()
    }

    /** The objects this state is made of. */
    ghost function Repr(): set<object>
    {
      {cpu, cpu.registers, memory.data}
    }

    /** The abstract value of this state. */
    function State(): (m: Machine)
      reads Repr()
      requires Valid()
      ensures m.cpu == cpu.State() && m.mem == memory.Contents()
    {
      Machine(cpu.State(), memory.Contents())
    }

    /** Go's zero value: every register, PC, SP, EX and memory word zero. */
    constructor ()
      ensures Valid() && fresh(Repr())
      ensures State() == Machine(CpuState([0, 0, 0, 0, 0, 0, 0, 0], 0, 0, 0), seq(MemorySize, _ => 0))
    {
      cpu := new D16CPU();
      memory := new D16MemoryState();
    }

    /** `Init`: only the CPU is reset. */
    method Init()
      requires Valid()
      modifies cpu, cpu.registers
      ensures Valid()
      ensures State() == InitMachine(old(State()))
    {
      cpu.Init();
    }

    /** `WordLoad`: read `Data[PC]` and advance PC; never fails. */
    method WordLoad() returns (r: Result<Word>)
      requires Valid()
      modifies cpu
      ensures Valid()
      ensures (r, State()) == MemWordLoad(old(State()))
    {
      var address := cpu.ReadIncPC();
      r := Ok(memory.ReadMemory(address));
    }

    /** `SkipWords`: advance PC by `count`; never fails. */
    method SkipWords(count: Word) returns (r: Outcome)
      requires Valid()
      modifies cpu
      ensures Valid()
      ensures (r, State()) == MemSkipWords(old(State()), count)
    {
      cpu.WritePC(Wrap(cpu.PC() + count));
      r := Pass;
    }
  }

  /** `CPUEquals`: compare the registers one by one, then PC, SP and EX. Two CPUs are
      equal in this sense exactly when their abstract states are equal, so the
      relation is an equivalence. */
  method CPUEquals(a: D16CPU, b: D16CPU) returns (equal: bool)
    requires a.Valid() && b.Valid()
    ensures equal <==> a.State() == b.State()
  {
    var id := 0;
    while id < 8
      invariant 0 <= id <= 8
      invariant forall j :: 0 <= j < id ==> a.registers[j] == b.registers[j]
    {
      if a.Register(id) != b.Register(id) {
        return false;
      }
      id := id + 1;
    }
    assert a.registers[..] == b.registers[..];
    equal := a.PC() == b.PC() && a.SP() == b.SP() && a.EX() == b.EX();
  }
}
