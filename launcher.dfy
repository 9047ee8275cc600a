/**
 * The launcher's decision logic (src/main.rs): which target binaries it accepts,
 * how it composes LD_PRELOAD and the auto-open flag for the child, and which
 * exit code it reports. File-system probes and the process spawn are inputs.
 */
module Launcher {
  import opened Wrappers

  /** Rust's `u8`. */
  type Byte = b: int | 0 <= b < 0x100

  /** Rust's `i32`, the type of `ExitStatus::code()`. */
  type I32 = x: int | -0x8000_0000 <= x < 0x8000_0000

  const ELF_HEADER_LEN: nat := 64
  /** "\x7fELF" */
  const ELF_MAGIC: seq<Byte> := [0x7F, 0x45, 0x4C, 0x46]
  /** EI_CLASS value of a 64-bit object. */
  const ELFCLASS64: Byte := 2
  const EM_X86_64: nat := 0x3E
  const ET_EXEC: nat := 2
  const ET_DYN: nat := 3

  /** The execute bits of a Unix mode, 0o111. */
  const EXEC_BITS: bv32 := 0x49
  const OWNER_EXEC: bv32 := 0x40  // 0o100
  const GROUP_EXEC: bv32 := 0x08  // 0o010
  const OTHER_EXEC: bv32 := 0x01  // 0o001

  const EXIT_SUCCESS: Byte := 0
  const EXIT_FAILURE: Byte := 1

  /** What the file system reports about the target path. `None` stands for a
      failing `metadata()` call or a failing `fs::read`. */
  datatype TargetFile = TargetFile(
    present: bool,
    isFile: bool,
    mode: Option<bv32>,
    contents: Option<seq<Byte>>)

  /** One variant per `Err` that `validate_target` can return; the variable
      part of each message is kept, the wording is not. */
  datatype TargetError =
    | NotFound
    | NotAFile
    | MetadataFailed
    | NotExecutable
    | ReadFailed
    | NotElf
    | Not64Bit
    | WrongMachine(eMachine: nat)
    | NotExecutableElf(eType: nat)

  /** `u16::from_le_bytes([lo, hi])`. */
  function LeU16(lo: Byte, hi: Byte): (r: nat)
    ensures r < 0x1_0000
    ensures r % 0x100 == lo && r / 0x100 == hi
  {
    lo + 0x100 * hi
  }

  /** The inverse of `LeU16`: `u16::to_le_bytes`. */
  function ToLeBytes(n: nat): (r: (Byte, Byte))
    requires n < 0x1_0000
    ensures LeU16(r.0, r.1) == n
  {
    (n % 0x100, n / 0x100)
  }

  /** `e_machine`, the little-endian half-word at offset 18. */
  function EMachine(bytes: seq<Byte>): nat
    requires |bytes| >= 20
  {
    LeU16(bytes[18], bytes[19])
  }

  /** `e_type`, the little-endian half-word at offset 16. */
  function EType(bytes: seq<Byte>): nat
    requires |bytes| >= 18
  {
    LeU16(bytes[16], bytes[17])
  }

  predicate HasElfMagic(bytes: seq<Byte>)
  {
    |bytes| >= ELF_HEADER_LEN && bytes[..4] == ELF_MAGIC
  }

  /** The header checks of `validate_target`, in the order the source runs them. */
  function CheckElfHeader(bytes: seq<Byte>): (r: Result<(), TargetError>)
    ensures r.Success? <==>
      && |bytes| >= 64
      && bytes[0] == 0x7F && bytes[1] == 0x45 && bytes[2] == 0x4C && bytes[3] == 0x46
      && bytes[4] == 2
      && bytes[18] == 0x3E && bytes[19] == 0
      && (bytes[16] == 2 || bytes[16] == 3) && bytes[17] == 0
    ensures r == Failure(NotElf) <==> !HasElfMagic(bytes)
    ensures r == Failure(Not64Bit) <==> HasElfMagic(bytes) && bytes[4] != 2
    ensures (r.Failure? && r.error.WrongMachine?) <==>
      HasElfMagic(bytes) && bytes[4] == 2 && !(bytes[18] == 0x3E && bytes[19] == 0)
    ensures (r.Failure? && r.error.NotExecutableElf?) <==>
      && HasElfMagic(bytes) && bytes[4] == 2 && bytes[18] == 0x3E && bytes[19] == 0
      && !((bytes[16] == 2 || bytes[16] == 3) && bytes[17] == 0)
    ensures r.Failure? && r.error.WrongMachine? ==>
      r.error.eMachine % 0x100 == bytes[18] && r.error.eMachine / 0x100 == bytes[19]
    ensures r.Failure? && r.error.NotExecutableElf? ==>
      r.error.eType % 0x100 == bytes[16] && r.error.eType / 0x100 == bytes[17]
  {
    if !HasElfMagic(bytes) then Failure(NotElf)
    else if bytes[4] != ELFCLASS64 then Failure(Not64Bit)
    else if EMachine(bytes) != EM_X86_64 then Failure(WrongMachine(EMachine(bytes)))
    else if EType(bytes) != ET_EXEC && EType(bytes) != ET_DYN then Failure(NotExecutableElf(EType(bytes)))
    else Success(())
  }

  /** Only the first twenty bytes of a long-enough file decide the header checks. */
  lemma {:induction false} HeaderPrefixDecides(a: seq<Byte>, b: seq<Byte>)
    requires |a| >= ELF_HEADER_LEN && |b| >= ELF_HEADER_LEN
    requires a[..20] == b[..20]
    ensures CheckElfHeader(a) == CheckElfHeader(b)
  {
    assert a[..4] == a[..20][..4] && b[..4] == b[..20][..4];
    assert forall k | 0 <= k < 20 :: a[k] == a[..20][k] && b[k] == b[..20][k];
  }

  /** `mode & 0o111 != 0`: some execute bit is set. */
  function IsExecutable(mode: bv32): (r: bool)
    ensures r <==> mode & OWNER_EXEC != 0 || mode & GROUP_EXEC != 0 || mode & OTHER_EXEC != 0
  {
    mode & EXEC_BITS != 0
  }

  /** `validate_target`: the path checks first, then the mode, then the header. */
  function ValidateTarget(t: TargetFile): (r: Result<(), TargetError>)
    ensures r.Success? <==>
      && t.present && t.isFile
      && t.mode.Some? && IsExecutable(t.mode.value)
      && t.contents.Some? && CheckElfHeader(t.contents.value).Success?
    ensures !t.present ==> r == Failure(NotFound)
    ensures t.present && !t.isFile ==> r == Failure(NotAFile)
    ensures t.present && t.isFile && t.mode.None? ==> r == Failure(MetadataFailed)
    ensures t.present && t.isFile && t.mode.Some? && t.mode.value & EXEC_BITS == 0 ==>
      r == Failure(NotExecutable)
    ensures t.present && t.isFile && t.mode.Some? && IsExecutable(t.mode.value) ==>
      r == (if t.contents.None? then Failure(ReadFailed) else CheckElfHeader(t.contents.value))
  {
    if !t.present then Failure(NotFound)
    else if !t.isFile then Failure(NotAFile)
    else if t.mode.None? then Failure(MetadataFailed)
    else if !IsExecutable(t.mode.value) then Failure(NotExecutable)
    else if t.contents.None? then Failure(ReadFailed)
    else CheckElfHeader(t.contents.value)
  }

  /** What a correctly composed LD_PRELOAD value looks like: the injection library
      first, and the existing preload list kept after a colon when it is non-empty. */
  ghost predicate ComposedPreload(libspy: string, existing: Option<string>, preload: string)
  {
    && libspy <= preload
    && (preload == libspy <==> existing.None? || existing.value == [])
    && (existing.Some? && existing.value != [] ==> preload[|libspy|..] == ":" + existing.value)
  }

  /** The three conditions of `ComposedPreload` pin the value down. */
  lemma ComposedPreloadUnique(libspy: string, existing: Option<string>, p1: string, p2: string)
    requires ComposedPreload(libspy, existing, p1) && ComposedPreload(libspy, existing, p2)
    ensures p1 == p2
  {
    if existing.Some? && existing.value != [] {
      assert p1 == p1[..|libspy|] + p1[|libspy|..];
      assert p2 == p2[..|libspy|] + p2[|libspy|..];
    }
  }

  /** Builds the LD_PRELOAD value. `existing` is `env::var("LD_PRELOAD")`, with `None`
      for an unset (or non-Unicode) variable. */
  method BuildPreload(libspy: string, existing: Option<string>) returns (preload: string)
    ensures ComposedPreload(libspy, existing, preload)
  {
    preload := libspy;
    if existing.Some? {
      if existing.value != [] {
        preload := preload + ":" + existing.value;
      }
    }
  }

  /** The value of TAURI_SPY_AUTO_OPEN handed to the child. */
  function EncodeAutoOpen(autoOpen: bool): (s: string)
    ensures s == "0" || s == "1"
    ensures s == "1" <==> autoOpen
  {
    if autoOpen then "1" else "0"
  }

  /** Rust's `x as u8` on an `i32`: keep the low eight bits. */
  function AsU8(x: I32): (r: Byte)
    ensures (x - r) % 0x100 == 0
    ensures 0 <= x < 0x100 ==> r == x
  {
    x % 0x100
  }

  /** How the child ended: `Exited(code)` when `status.code()` is `Some(code)`,
      `Signalled` when it is `None`. */
  datatype ChildStatus = Exited(code: I32) | Signalled

  /** The exit code `main` reports for a child that was launched. */
  function ExitCodeFor(status: ChildStatus): (c: Byte)
    ensures status == Exited(0) ==> c == EXIT_SUCCESS
    ensures status.Signalled? ==> c == EXIT_FAILURE
    ensures status.Exited? && status.code != 0 ==> (status.code - c) % 0x100 == 0
    ensures status.Exited? && 0 < status.code < 0x100 ==> c == status.code
  {
    match status
    case Exited(code) => if code == 0 then EXIT_SUCCESS else AsU8(code)
    case Signalled => AsU8(1)
  }

  /** The parsed command line. */
  datatype Cli = Cli(target: string, autoOpen: bool, args: seq<string>)

  /** The child process `main` starts: program, arguments and the variables it sets. */
  datatype Launch = Launch(program: string, args: seq<string>, env: map<string, string>)

  const LD_PRELOAD: string := "LD_PRELOAD"
  const AUTO_OPEN_VAR: string := "TAURI_SPY_AUTO_OPEN"
  const NO_COMPOSITING_VAR: string := "WEBKIT_DISABLE_COMPOSITING_MODE"
  const NO_DMABUF_VAR: string := "WEBKIT_DISABLE_DMABUF_RENDERER"

  /**
   * `main` after argument parsing. `libspy` is what `find_libspy` found,
   * `existing` the parent's LD_PRELOAD, and `spawned` the result of
   * `Command::status()` (`None` when the child could not be started); it is
   * consulted only when a child is launched.
   */
  method Run(cli: Cli, target: TargetFile, libspy: Option<string>, existing: Option<string>,
             spawned: Option<ChildStatus>)
    returns (launch: Option<Launch>, exitCode: Byte)
    ensures ValidateTarget(target).Failure? ==> launch.None? && exitCode == EXIT_FAILURE
    ensures ValidateTarget(target).Success? && libspy.None? ==>
      launch.None? && exitCode == EXIT_FAILURE
    ensures ValidateTarget(target).Success? && libspy.Some? ==>
      && launch.Some?
      && launch.value.program == cli.target
      && launch.value.args == cli.args
      && launch.value.env.Keys == {LD_PRELOAD, AUTO_OPEN_VAR, NO_COMPOSITING_VAR, NO_DMABUF_VAR}
      && ComposedPreload(libspy.value, existing, launch.value.env[LD_PRELOAD])
      && launch.value.env[AUTO_OPEN_VAR] == EncodeAutoOpen(cli.autoOpen)
      && launch.value.env[NO_COMPOSITING_VAR] == "1"
      && launch.value.env[NO_DMABUF_VAR] == "1"
      && exitCode == (if spawned.None? then EXIT_FAILURE else ExitCodeFor(spawned.value))
  {
    if ValidateTarget(target).Failure? {
      return None, EXIT_FAILURE;
    }
    if libspy.None? {
      return None, EXIT_FAILURE;
    }
    var preload := BuildPreload(libspy.value, existing);
    var autoOpen := EncodeAutoOpen(cli.autoOpen);
    var env := map[LD_PRELOAD := preload, AUTO_OPEN_VAR := autoOpen,
                   NO_COMPOSITING_VAR := "1", NO_DMABUF_VAR := "1"];
    launch := Some(Launch(cli.target, cli.args, env));
    match spawned
    case None => exitCode := EXIT_FAILURE;
    case Some(status) => exitCode := ExitCodeFor(status);
  }
}
