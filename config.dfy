/** The configuration console (`ConfigManager`): the fifteen integer
    parameters and their copy in EEPROM, the command interpreter
    `traiterCommande`, and the assembly of serial bytes into command lines. */
module Config {
  import opened Common
  import opened CText

  /** `Parametres`: fifteen integer settings. */
  datatype Params = Params(
    logInterval: int, fileMaxSize: int, timeout: int,
    lumin: int, luminLow: int, luminHigh: int,
    tempAir: int, minTempAir: int, maxTempAir: int,
    hygr: int, hygrMinT: int, hygrMaxT: int,
    pressure: int, pressureMin: int, pressureMax: int)

  /** `defaultParams`, the values kept in program memory. */
  const Defaults: Params := Params(10, 4096, 30, 1, 255, 768, 1, -10, 60, 1, 0, 50, 1, 850, 1080)

  /** The global `params` before anything is loaded: zero-initialised. */
  const Unset: Params := Params(0, 0, 0, 0, 0, 0, 0, 0, 0, 0, 0, 0, 0, 0, 0)

  const ParamCount: nat := 15

  /** The parameter names, in the order `traiterCommande` tries them. */
  const Names: seq<string> := [
    "LOG_INTERVAL", "FILE_MAX_SIZE", "TIMEOUT",
    "LUMIN", "LUMIN_LOW", "LUMIN_HIGH",
    "TEMP_AIR", "MIN_TEMP_AIR", "MAX_TEMP_AIR",
    "HYGR", "HYGR_MINT", "HYGR_MAXT",
    "PRESSURE", "PRESSURE_MIN", "PRESSURE_MAX"]

  /** `TEMP_RETOUR_AUTO`: seconds without input before Config mode ends. */
  const TempRetourAuto: nat := 10

  /** `CMD_BUFFER`: the size of the line buffer, terminator included. */
  const CmdBuffer: nat := 48

  /** The parameter named `Names[i]`. */
  function Get(p: Params, i: nat): int
    requires i < ParamCount
  {
    match i
    case 0 => p.logInterval
    case 1 => p.fileMaxSize
    case 2 => p.timeout
    case 3 => p.lumin
    case 4 => p.luminLow
    case 5 => p.luminHigh
    case 6 => p.tempAir
    case 7 => p.minTempAir
    case 8 => p.maxTempAir
    case 9 => p.hygr
    case 10 => p.hygrMinT
    case 11 => p.hygrMaxT
    case 12 => p.pressure
    case 13 => p.pressureMin
    case _ => p.pressureMax
  }

  /** `p` with the parameter named `Names[i]` set to `v`: that parameter
      reads `v` and every other one is unchanged. */
  function With(p: Params, i: nat, v: int): (r: Params)
    requires i < ParamCount
    ensures Get(r, i) == v
    ensures forall j :: 0 <= j < ParamCount && j != i ==> Get(r, j) == Get(p, j)
  {
    match i
    case 0 => p.(logInterval := v)
    case 1 => p.(fileMaxSize := v)
    case 2 => p.(timeout := v)
    case 3 => p.(lumin := v)
    case 4 => p.(luminLow := v)
    case 5 => p.(luminHigh := v)
    case 6 => p.(tempAir := v)
    case 7 => p.(minTempAir := v)
    case 8 => p.(maxTempAir := v)
    case 9 => p.(hygr := v)
    case 10 => p.(hygrMinT := v)
    case 11 => p.(hygrMaxT := v)
    case 12 => p.(pressure := v)
    case 13 => p.(pressureMin := v)
    case _ => p.(pressureMax := v)
  }

  /** Two records that agree on every named parameter are equal. */
  lemma ParamsByName(p: Params, q: Params)
    requires forall j :: 0 <= j < ParamCount ==> Get(p, j) == Get(q, j)
    ensures p == q
  {
    assert Get(p, 0) == Get(q, 0) && Get(p, 1) == Get(q, 1) && Get(p, 2) == Get(q, 2);
    assert Get(p, 3) == Get(q, 3) && Get(p, 4) == Get(q, 4) && Get(p, 5) == Get(q, 5);
    assert Get(p, 6) == Get(q, 6) && Get(p, 7) == Get(q, 7) && Get(p, 8) == Get(q, 8);
    assert Get(p, 9) == Get(q, 9) && Get(p, 10) == Get(q, 10) && Get(p, 11) == Get(q, 11);
    assert Get(p, 12) == Get(q, 12) && Get(p, 13) == Get(q, 13) && Get(p, 14) == Get(q, 14);
  }

  /** The first parameter, from `from` on, whose name `n` matches ignoring case. */
  function LookupFrom(n: seq<char>, from: nat): (r: Option<nat>)
    requires from <= ParamCount
    ensures r.Some? ==> from <= r.value < ParamCount && EqualsIgnoreCase(n, Names[r.value])
    ensures r.Some? ==> forall j :: from <= j < r.value ==> !EqualsIgnoreCase(n, Names[j])
    ensures r.None? ==> forall j :: from <= j < ParamCount ==> !EqualsIgnoreCase(n, Names[j])
    decreases ParamCount - from
  {
    if from == ParamCount then None
    else if EqualsIgnoreCase(n, Names[from]) then Some(from)
    else LookupFrom(n, from + 1)
  }

  /** The parameter a name selects in `SET` and `GET`. */
  function Lookup(n: seq<char>): Option<nat>
  {
    LookupFrom(n, 0)
  }

  /** The chain of `iequals_P` tests over the parameter names: the first
      name that matches. */
  method LookupParam(m: seq<char>, s: nat) returns (r: Option<nat>)
    requires Terminated(m, s)
    ensures r == Lookup(CStr(m, s))
  {
    NamesHaveNoNul();
    var i := 0;
    while i < ParamCount
      invariant 0 <= i <= ParamCount
      invariant LookupFrom(CStr(m, s), 0) == LookupFrom(CStr(m, s), i)
    {
      var eq := IEqualsP(m, s, Names[i]);
      if eq {
        return Some(i);
      }
      i := i + 1;
    }
    return None;
  }

  lemma NamesHaveNoNul()
    ensures forall i :: 0 <= i < ParamCount ==> NUL !in Names[i]
  {
  }

  /** What a dispatched command prints, abstracted. */
  datatype Reply =
    | Silent                  // empty or blank line
    | SetUsage                // SET without a name or a value
    | ClockUpdated(at: DateTime)
    | Updated                 // a parameter was set and saved
    | UnknownParam
    | GetUsage                // GET without a name
    | ParamValue(v: int)
    | ResetDone
    | VersionInfo
    | Listing(p: Params)
    | Exiting
    | UnknownCommand

  /** What one command does: the new parameters, whether they are written to
      EEPROM, the clock setting passed to `setupTime`, what is printed, and
      whether EXIT was given. */
  datatype Effect = Effect(params: Params, save: bool, clock: Option<DateTime>, reply: Reply, exit: bool)

  /** `SET <name> <value>`, from the words of the line. */
  function SetEffect(p: Params, ws: seq<seq<char>>): (e: Effect)
    ensures !e.exit
    ensures e.params != p ==> |ws| >= 3 && Lookup(ws[1]).Some?
  {
    if |ws| < 3 then Effect(p, false, None, SetUsage, false)
    else if EqualsIgnoreCase(ws[1], "CLOCK") then Effect(p, true, Some(ClockOf(ws[2])), ClockUpdated(ClockOf(ws[2])), false)
    else match Lookup(ws[1])
      case None => Effect(p, false, None, UnknownParam, false)
      case Some(i) => Effect(With(p, i, ParseInt(ws[2])), true, None, Updated, false)
  }

  /** `GET <name>`: prints the value, changes nothing. */
  function GetEffect(p: Params, ws: seq<seq<char>>): (e: Effect)
    ensures e.params == p && !e.save && e.clock.None? && !e.exit
  {
    if |ws| < 2 then Effect(p, false, None, GetUsage, false)
    else match Lookup(ws[1])
      case None => Effect(p, false, None, UnknownParam, false)
      case Some(i) => Effect(p, false, None, ParamValue(Get(p, i)), false)
  }

  /** The commands `traiterCommande` knows. */
  datatype Command = SetCmd | GetCmd | ResetCmd | VersionCmd | ParamsCmd | ExitCmd | UnknownCmd

  /** The command a first word names, ignoring case. */
  function Classify(w: seq<char>): (c: Command)
    ensures c == SetCmd <==> EqualsIgnoreCase(w, "set")
    ensures c == GetCmd <==> EqualsIgnoreCase(w, "get")
    ensures c == ResetCmd <==> EqualsIgnoreCase(w, "reset")
    ensures c == VersionCmd <==> EqualsIgnoreCase(w, "version")
    ensures c == ParamsCmd <==> EqualsIgnoreCase(w, "params")
    ensures c == ExitCmd <==> EqualsIgnoreCase(w, "exit")
  {
    assert Upper("set")[0] != Upper("get")[0];
    if EqualsIgnoreCase(w, "set") then SetCmd
    else if EqualsIgnoreCase(w, "get") then GetCmd
    else if EqualsIgnoreCase(w, "reset") then ResetCmd
    else if EqualsIgnoreCase(w, "version") then VersionCmd
    else if EqualsIgnoreCase(w, "params") then ParamsCmd
    else if EqualsIgnoreCase(w, "exit") then ExitCmd
    else UnknownCmd
  }

  /** The chain of `iequals_P` tests on the first argument. */
  method CommandOf(m: seq<char>, s: nat) returns (c: Command)
    requires Terminated(m, s)
    ensures c == Classify(CStr(m, s))
  {
    var eq := IEqualsP(m, s, "set");
    if eq { return SetCmd; }
    eq := IEqualsP(m, s, "get");
    if eq { return GetCmd; }
    eq := IEqualsP(m, s, "reset");
    if eq { return ResetCmd; }
    eq := IEqualsP(m, s, "version");
    if eq { return VersionCmd; }
    eq := IEqualsP(m, s, "params");
    if eq { return ParamsCmd; }
    eq := IEqualsP(m, s, "exit");
    if eq { return ExitCmd; }
    return UnknownCmd;
  }

  /** `traiterCommande` on the words of a line: the first word selects the
      command, ignoring case; at most three words are looked at. */
  function Execute(p: Params, ws: seq<seq<char>>): (e: Effect)
    ensures e.exit <==> |ws| > 0 && EqualsIgnoreCase(ws[0], "exit")
  {
    if |ws| == 0 then Effect(p, false, None, Silent, false)
    else match Classify(ws[0])
      case SetCmd => SetEffect(p, ws)
      case GetCmd => GetEffect(p, ws)
      case ResetCmd => Effect(Defaults, true, None, ResetDone, false)
      case VersionCmd => Effect(p, false, None, VersionInfo, false)
      case ParamsCmd => Effect(p, false, None, Listing(p), false)
      case ExitCmd => Effect(p, false, None, Exiting, true)
      case UnknownCmd => Effect(p, false, None, UnknownCommand, false)
  }

  /** `SET` with a known parameter name changes exactly that parameter, to
      the value `toIntFast` reads, and saves. */
  lemma SetChangesOneField(p: Params, ws: seq<seq<char>>, i: nat)
    requires |ws| >= 3 && EqualsIgnoreCase(ws[0], "set") && !EqualsIgnoreCase(ws[1], "CLOCK")
    requires Lookup(ws[1]) == Some(i)
    ensures var e := Execute(p, ws);
      && e.save && e.reply == Updated && e.clock.None?
      && Get(e.params, i) == ParseInt(ws[2])
      && forall j :: 0 <= j < ParamCount && j != i ==> Get(e.params, j) == Get(p, j)
  {
  }

  /** Only `SET` with a known name and `RESET` change the parameters: a
      missing argument, an unknown name, `SET CLOCK`, `GET`, `VERSION`,
      `PARAMS`, `EXIT` and unknown commands leave them as they are. */
  lemma OnlySetAndResetChangeParams(p: Params, ws: seq<seq<char>>)
    ensures var e := Execute(p, ws);
      e.params != p ==>
        |ws| > 0 &&
        ((EqualsIgnoreCase(ws[0], "set") && |ws| >= 3 && Lookup(ws[1]).Some?)
         || EqualsIgnoreCase(ws[0], "reset"))
  {
  }

  /** `RESET` restores the defaults and writes them back. */
  lemma ResetRestoresDefaults(p: Params, ws: seq<seq<char>>)
    requires |ws| > 0 && EqualsIgnoreCase(ws[0], "reset")
    ensures Execute(p, ws).params == Defaults && Execute(p, ws).save
  {
  }

  /** Upper-casing a string that has no lower-case letter changes nothing. */
  lemma UpperOfUpper(s: seq<char>)
    requires forall k :: 0 <= k < |s| ==> !IsLower(s[k])
    ensures Upper(s) == s
  {
  }

  /** The parameter names are written in upper case. */
  lemma NamesAreUpper(j: nat)
    requires j < ParamCount
    ensures Upper(Names[j]) == Names[j]
  {
    UpperOfUpper(Names[j]);
  }

  /** No two parameter names are the same. */
  lemma NamesDistinct(i: nat, j: nat)
    requires i < ParamCount && j < ParamCount && i != j
    ensures Names[i] != Names[j]
  {
  }

  /** A name typed in any case selects its own parameter: no two names are
      the same ignoring case. */
  lemma LookupFindsName(n: seq<char>, i: nat)
    requires i < ParamCount && EqualsIgnoreCase(n, Names[i])
    ensures Lookup(n) == Some(i)
  {
    NamesAreUpper(i);
    forall j | 0 <= j < i
      ensures !EqualsIgnoreCase(n, Names[j])
    {
      NamesAreUpper(j);
      NamesDistinct(i, j);
    }
    LookupSkips(n, 0, i);
  }

  /** `LookupFrom` passes over names that do not match. */
  lemma {:induction false} LookupSkips(n: seq<char>, from: nat, i: nat)
    requires from <= i < ParamCount && EqualsIgnoreCase(n, Names[i])
    requires forall j :: from <= j < i ==> !EqualsIgnoreCase(n, Names[j])
    ensures LookupFrom(n, from) == Some(i)
    decreases i - from
  {
    if from < i {
      LookupSkips(n, from + 1, i);
    }
  }

  /** `GET` after `SET` of the same known name reads back what `toIntFast`
      made of the value. */
  lemma SetThenGet(p: Params, name: seq<char>, v: seq<char>, s: seq<char>, g: seq<char>)
    requires EqualsIgnoreCase(s, "set") && EqualsIgnoreCase(g, "get")
    requires !EqualsIgnoreCase(name, "CLOCK") && Lookup(name).Some?
    ensures Execute(Execute(p, [s, name, v]).params, [g, name]).reply == ParamValue(ParseInt(v))
  {
    assert !EqualsIgnoreCase(g, "set") by {
      assert Upper(g)[0] == 'G' && Upper(s)[0] == 'S';
    }
  }

  /** What `ConfigManager_load` leaves in `params`: the stored record when
      its logging interval lies in 1..3600, the defaults otherwise. */
  function Loaded(stored: Params): (p: Params)
    ensures 1 <= p.logInterval <= 3600
    ensures 1 <= stored.logInterval <= 3600 ==> p == stored
    ensures !(1 <= stored.logInterval <= 3600) ==> p == Defaults
  {
    if stored.logInterval <= 0 || stored.logInterval > 3600 then Defaults else stored
  }

  /** The text `traiterCommande` sees for a buffered line: up to its first
      NUL, which the terminator written after the line provides if the line
      has none. */
  function Text(line: seq<char>): (t: seq<char>)
    ensures t == line[..RunLen(line, NUL)]
    ensures NUL !in t && |t| <= |line|
  {
    var m, n := line + [NUL], RunLen(line, NUL);
    assert m[n] == NUL;
    assert forall k :: 0 <= k < n ==> m[k] == line[k];
    CStrIs(m, 0, n);
    assert m[0..n] == line[..n];
    CStr(m, 0)
  }

  /** The console's state as a value: parameters, EEPROM record, the line
      being assembled, `secondesEcoulees`, the clock settings passed to
      `setupTime` and the replies printed so far. */
  datatype ConsoleState = ConsoleState(
    params: Params, eeprom: Params, line: seq<char>, secs: nat,
    clockSets: seq<DateTime>, replies: seq<Reply>)

  function ClockLog(c: Option<DateTime>): seq<DateTime>
  {
    if c.Some? then [c.value] else []
  }

  /** Running the command held in `line`. */
  function Dispatched(s: ConsoleState): ConsoleState
  {
    var e := Execute(s.params, Words(Text(s.line)));
    s.(params := e.params,
       eeprom := if e.save then e.params else s.eeprom,
       clockSets := s.clockSets + ClockLog(e.clock),
       replies := s.replies + [e.reply])
  }

  /** One byte read by `ConfigManager_Update`: CR is dropped, LF runs the
      line and starts a new one with the inactivity count at zero, any other
      byte is appended while there is room for it and the terminator. */
  function FeedStep(s: ConsoleState, c: char): (r: ConsoleState)
    requires |s.line| <= CmdBuffer - 1
    ensures |r.line| <= CmdBuffer - 1
    ensures c == '\n' ==> r.line == [] && r.secs == 0
    ensures c == '\r' ==> r == s
    ensures c != '\n' ==> r == s.(line := r.line)
    ensures c != '\n' && c != '\r' ==>
      r.line == if |s.line| < CmdBuffer - 1 then s.line + [c] else s.line
  {
    if c == '\r' then s
    else if c == '\n' then Dispatched(s).(line := [], secs := 0)
    else if |s.line| < CmdBuffer - 1 then s.(line := s.line + [c])
    else s
  }

  /** The bytes `input` fed one after the other. */
  function FeedAll(s: ConsoleState, input: seq<char>): (r: ConsoleState)
    requires |s.line| <= CmdBuffer - 1
    ensures |r.line| <= CmdBuffer - 1
  {
    if input == [] then s else FeedStep(FeedAll(s, input[..|input| - 1]), input[|input| - 1])
  }

  /** The first `CMD_BUFFER - 1` characters of a line. */
  function Truncated(line: seq<char>): (t: seq<char>)
    ensures |t| <= CmdBuffer - 1
  {
    if |line| <= CmdBuffer - 1 then line else line[..CmdBuffer - 1]
  }

  /** Characters other than CR and LF accumulate into the line up to its
      capacity; the excess is lost and nothing else changes. */
  lemma {:induction false} FeedChars(s: ConsoleState, cs: seq<char>)
    requires |s.line| <= CmdBuffer - 1
    requires forall k :: 0 <= k < |cs| ==> cs[k] != '\n' && cs[k] != '\r'
    ensures FeedAll(s, cs) == s.(line := Truncated(s.line + cs))
    decreases |cs|
  {
    if cs == [] {
      assert s.line + cs == s.line;
    } else {
      var init := cs[..|cs| - 1];
      FeedChars(s, init);
      var l := s.line + init;
      assert s.line + cs == l + [cs[|cs| - 1]];
      if |l| < CmdBuffer - 1 {
        assert Truncated(l) == l;
      } else {
        assert Truncated(l + [cs[|cs| - 1]]) == Truncated(l) by {
          assert (l + [cs[|cs| - 1]])[..CmdBuffer - 1] == l[..CmdBuffer - 1];
        }
      }
    }
  }

  /** A newline runs the (possibly truncated) line and zeroes the inactivity
      count, whatever the command: the count EXIT sets is overwritten at
      once, so EXIT does not hasten the return to Standard mode. */
  lemma NewlineZeroesSeconds(s: ConsoleState)
    requires |s.line| <= CmdBuffer - 1
    ensures var r := FeedStep(s, '\n');
      && r.secs == 0 && r.line == []
      && r.params == Execute(s.params, Words(Text(s.line))).params
  {
  }

  /** The three calls to `nextToken` at the start of `traiterCommande`:
      each argument, when present, is the C string of the word of that rank. */
  method Tokens(buf: array<char>) returns (a1: Option<nat>, a2: Option<nat>, a3: Option<nat>)
    requires Terminated(buf[..], 0)
    modifies buf
    ensures var ws := Words(CStr(old(buf[..]), 0));
      && (a1.Some? <==> |ws| >= 1) && (a2.Some? <==> |ws| >= 2) && (a3.Some? <==> |ws| >= 3)
      && (a1.Some? ==> Terminated(buf[..], a1.value) && CStr(buf[..], a1.value) == ws[0])
      && (a2.Some? ==> Terminated(buf[..], a2.value) && CStr(buf[..], a2.value) == ws[1])
      && (a3.Some? ==> Terminated(buf[..], a3.value) && CStr(buf[..], a3.value) == ws[2])
  {
    ghost var m0 := buf[..];
    var c1, c2, c3;
    a1, c1 := NextToken(buf, 0);
    ghost var m1 := buf[..];
    a2, c2 := NextToken(buf, c1);
    ghost var m2 := buf[..];
    if a1.Some? {
      TokenKeeps(m1, c1, m2, a2, c2, a1.value);
    }
    a3, c3 := NextToken(buf, c2);
    ghost var m3 := buf[..];
    if a1.Some? {
      TokenKeeps(m2, c2, m3, a3, c3, a1.value);
    }
    if a2.Some? {
      TokenKeeps(m2, c2, m3, a3, c3, a2.value);
    }
    TokenRanks(m0, m1, m2, m3, c1, c2, c3, a1, a2, a3);
  }

  /** A C string that ends before the cursor survives a call to `nextToken`. */
  lemma TokenKeeps(m: seq<char>, next: nat, m': seq<char>, tok: Option<nat>, next': nat, a: nat)
    requires Terminated(m, next) && Tokenized(m, next, m', tok, next')
    requires Terminated(m, a) && FirstNul(m, a) <= next
    ensures Terminated(m', a) && FirstNul(m', a) == FirstNul(m, a) && CStr(m', a) == CStr(m, a)
    ensures FirstNul(m', a) <= next'
  {
    var f := FirstNul(m, a);
    forall k | a <= k <= f
      ensures m'[k] == m[k]
    {
      if k == f {
        assert m[k] == NUL;
      }
    }
    CStrFrame(m, m', a);
  }

  /** The word list after each of the three calls. */
  lemma TokenRanks(m0: seq<char>, m1: seq<char>, m2: seq<char>, m3: seq<char>,
                   c1: nat, c2: nat, c3: nat, a1: Option<nat>, a2: Option<nat>, a3: Option<nat>)
    requires Terminated(m0, 0) && Tokenized(m0, 0, m1, a1, c1)
    requires Terminated(m1, c1) && Tokenized(m1, c1, m2, a2, c2)
    requires Terminated(m2, c2) && Tokenized(m2, c2, m3, a3, c3)
    ensures var ws := Words(CStr(m0, 0));
      && (a1.Some? <==> |ws| >= 1) && (a2.Some? <==> |ws| >= 2) && (a3.Some? <==> |ws| >= 3)
      && (a1.Some? ==> CStr(m1, a1.value) == ws[0])
      && (a2.Some? ==> CStr(m2, a2.value) == ws[1])
      && (a3.Some? ==> CStr(m3, a3.value) == ws[2])
  {
    var ws := Words(CStr(m0, 0));
    if ws != [] {
      var ws1 := Words(CStr(m1, c1));
      assert ws1 == ws[1..];
      if ws1 != [] {
        assert Words(CStr(m2, c2)) == ws[2..];
      }
    }
  }

  /** `ConfigManager_Update`'s state: the parameters, the EEPROM record, the
      static line buffer with its length, `secondesEcoulees`, and the
      effects on the clock and the serial line. */
  class Console {
    var params: Params
    var eeprom: Params
    const cmdBuffer: array<char>
    var cmdLen: nat
    var secondesEcoulees: nat
    var clockSets: seq<DateTime>
    var replies: seq<Reply>

    ghost predicate Valid()
      reads this
    {
      cmdBuffer.Length == CmdBuffer && cmdLen <= CmdBuffer - 1
    }

    ghost function State(): ConsoleState
      reads this, cmdBuffer
      requires Valid()
    {
      ConsoleState(params, eeprom, cmdBuffer[..cmdLen], secondesEcoulees, clockSets, replies)
    }

    /** Power-on: `stored` is what EEPROM holds. */
    constructor (stored: Params)
      ensures Valid() && fresh(cmdBuffer)
      ensures State() == ConsoleState(Unset, stored, [], 0, [], [])
    {
      params := Unset;
      eeprom := stored;
      cmdBuffer := new char[CmdBuffer](_ => NUL);
      cmdLen := 0;
      secondesEcoulees := 0;
      clockSets := [];
      replies := [];
    }

    /** `ConfigManager_save`. */
    method Save()
      modifies this
      ensures eeprom == params
      ensures params == old(params) && cmdLen == old(cmdLen) && secondesEcoulees == old(secondesEcoulees)
      ensures clockSets == old(clockSets) && replies == old(replies)
    {
      eeprom := params;
    }

    /** `ConfigManager_load` (and `ConfigManager_init`, which only calls it). */
    method Load()
      modifies this
      ensures params == Loaded(old(eeprom))
      ensures eeprom == if 1 <= old(eeprom).logInterval <= 3600 then old(eeprom) else Defaults
      ensures cmdLen == old(cmdLen) && secondesEcoulees == old(secondesEcoulees)
      ensures clockSets == old(clockSets) && replies == old(replies)
    {
      params := eeprom;
      if params.logInterval <= 0 || params.logInterval > 3600 {
        params := Defaults;
        Save();
      }
    }

    /** `ConfigManager_reset`. */
    method Reset()
      modifies this
      ensures params == Defaults && eeprom == Defaults
      ensures cmdLen == old(cmdLen) && secondesEcoulees == old(secondesEcoulees)
      ensures clockSets == old(clockSets) && replies == old(replies)
    {
      params := Defaults;
      Save();
    }

    /** The `SET` branch of `traiterCommande`; `ws` are the words of the line. */
    method SetCommand(ghost ws: seq<seq<char>>, a2: Option<nat>, a3: Option<nat>)
      requires |ws| >= 1 && (a2.Some? <==> |ws| >= 2) && (a3.Some? <==> |ws| >= 3)
      requires a2.Some? ==> Terminated(cmdBuffer[..], a2.value) && CStr(cmdBuffer[..], a2.value) == ws[1]
      requires a3.Some? ==> Terminated(cmdBuffer[..], a3.value) && CStr(cmdBuffer[..], a3.value) == ws[2]
      modifies this, cmdBuffer
      ensures var e := SetEffect(old(params), ws);
        && params == e.params && eeprom == (if e.save then e.params else old(eeprom))
        && clockSets == old(clockSets) + ClockLog(e.clock) && replies == old(replies) + [e.reply]
      ensures cmdLen == old(cmdLen) && secondesEcoulees == old(secondesEcoulees)
    {
      if a2.None? || a3.None? {
        assert SetEffect(params, ws) == Effect(params, false, None, SetUsage, false);
        replies := replies + [SetUsage];
        return;
      }
      var isClock := IEqualsP(cmdBuffer[..], a2.value, "CLOCK");
      if isClock {
        SetClock(ws, a3.value);
      } else {
        SetValue(ws, a2.value, a3.value);
      }
    }

    /** `SET CLOCK <spec>`: the clock is set and the parameters are saved. */
    method SetClock(ghost ws: seq<seq<char>>, a3: nat)
      requires |ws| >= 3 && EqualsIgnoreCase(ws[1], "CLOCK")
      requires Terminated(cmdBuffer[..], a3) && CStr(cmdBuffer[..], a3) == ws[2]
      modifies this, cmdBuffer
      ensures var e := SetEffect(old(params), ws);
        && params == e.params && eeprom == (if e.save then e.params else old(eeprom))
        && clockSets == old(clockSets) + ClockLog(e.clock) && replies == old(replies) + [e.reply]
      ensures cmdLen == old(cmdLen) && secondesEcoulees == old(secondesEcoulees)
    {
      ghost var e := SetEffect(params, ws);
      assert e == Effect(params, true, Some(ClockOf(ws[2])), ClockUpdated(ClockOf(ws[2])), false);
      var r := ParseClockSpec(cmdBuffer, Some(a3));
      var at := r.value;
      assert at == ClockOf(ws[2]);
      clockSets := clockSets + [at];
      Save();
      replies := replies + [ClockUpdated(at)];
    }

    /** `SET <name> <value>`: the named parameter is set and saved, or the
        name is reported unknown. */
    method SetValue(ghost ws: seq<seq<char>>, a2: nat, a3: nat)
      requires |ws| >= 3 && !EqualsIgnoreCase(ws[1], "CLOCK")
      requires Terminated(cmdBuffer[..], a2) && CStr(cmdBuffer[..], a2) == ws[1]
      requires Terminated(cmdBuffer[..], a3) && CStr(cmdBuffer[..], a3) == ws[2]
      modifies this
      ensures var e := SetEffect(old(params), ws);
        && params == e.params && eeprom == (if e.save then e.params else old(eeprom))
        && clockSets == old(clockSets) + ClockLog(e.clock) && replies == old(replies) + [e.reply]
      ensures cmdLen == old(cmdLen) && secondesEcoulees == old(secondesEcoulees)
    {
      var val := ToIntFast(cmdBuffer[..], a3);
      var i := LookupParam(cmdBuffer[..], a2);
      if i.Some? {
        assert SetEffect(params, ws) == Effect(With(params, i.value, val), true, None, Updated, false);
        params := With(params, i.value, val);
        Save();
        replies := replies + [Updated];
      } else {
        assert SetEffect(params, ws) == Effect(params, false, None, UnknownParam, false);
        replies := replies + [UnknownParam];
      }
    }

    /** The `GET` branch of `traiterCommande`. */
    method GetCommand(ghost ws: seq<seq<char>>, a2: Option<nat>)
      requires |ws| >= 1 && (a2.Some? <==> |ws| >= 2)
      requires a2.Some? ==> Terminated(cmdBuffer[..], a2.value) && CStr(cmdBuffer[..], a2.value) == ws[1]
      modifies this
      ensures replies == old(replies) + [GetEffect(old(params), ws).reply]
      ensures params == old(params) && eeprom == old(eeprom) && clockSets == old(clockSets)
      ensures cmdLen == old(cmdLen) && secondesEcoulees == old(secondesEcoulees)
    {
      if a2.None? {
        replies := replies + [GetUsage];
        return;
      }
      var i := LookupParam(cmdBuffer[..], a2.value);
      if i.Some? {
        replies := replies + [ParamValue(Get(params, i.value))];
      } else {
        replies := replies + [UnknownParam];
      }
    }

    /** `traiterCommande(cmdBuffer)` on the NUL-terminated line at the start
        of the buffer. */
    method Dispatch()
      requires Terminated(cmdBuffer[..], 0)
      modifies this, cmdBuffer
      ensures var e := Execute(old(params), Words(CStr(old(cmdBuffer[..]), 0)));
        && params == e.params && eeprom == (if e.save then e.params else old(eeprom))
        && clockSets == old(clockSets) + ClockLog(e.clock) && replies == old(replies) + [e.reply]
        && secondesEcoulees == (if e.exit then TempRetourAuto - 1 else old(secondesEcoulees))
      ensures cmdLen == old(cmdLen)
    {
      ghost var ws := Words(CStr(cmdBuffer[..], 0));
      if cmdBuffer[0] == NUL {
        CStrIs(cmdBuffer[..], 0, 0);
        replies := replies + [Silent];
        return;
      }
      var a1, a2, a3 := Tokens(cmdBuffer);
      if a1.None? {
        replies := replies + [Silent];
        return;
      }
      var cmd := CommandOf(cmdBuffer[..], a1.value);
      match cmd {
        case SetCmd => SetCommand(ws, a2, a3);
        case GetCmd => GetCommand(ws, a2);
        case ResetCmd =>
          Reset();
          replies := replies + [ResetDone];
        case VersionCmd => replies := replies + [VersionInfo];
        case ParamsCmd => replies := replies + [Listing(params)];
        case ExitCmd =>
          replies := replies + [Exiting];
          secondesEcoulees := TempRetourAuto - 1;
        case UnknownCmd => replies := replies + [UnknownCommand];
      }
    }

    /** One byte of `ConfigManager_Update`'s loop. */
    method Feed(c: char)
      requires Valid()
      modifies this, cmdBuffer
      ensures Valid() && State() == FeedStep(old(State()), c)
    {
      if c == '\r' {
        return;
      }
      if c == '\n' {
        ghost var line := cmdBuffer[..cmdLen];
        cmdBuffer[cmdLen] := NUL;
        LineText(cmdBuffer[..], line);
        Dispatch();
        cmdLen := 0;
        secondesEcoulees := 0;
        return;
      }
      if cmdLen < CmdBuffer - 1 {
        cmdBuffer[cmdLen] := c;
        cmdLen := cmdLen + 1;
      }
    }

    /** `ConfigManager_Update`: consume every byte available. */
    method Update(input: seq<char>)
      requires Valid()
      modifies this, cmdBuffer
      ensures Valid() && State() == FeedAll(old(State()), input)
    {
      for i := 0 to |input|
        invariant Valid() && State() == FeedAll(old(State()), input[..i])
      {
        assert input[..i + 1][..i] == input[..i];
        Feed(input[i]);
      }
      assert input[..|input|] == input;
    }
  }

  /** The buffer, once the terminator is written after the line, holds the
      line's text as its C string at index 0. */
  lemma LineText(m: seq<char>, line: seq<char>)
    requires |line| < |m| && m[..|line|] == line && m[|line|] == NUL
    ensures Terminated(m, 0) && CStr(m, 0) == Text(line)
  {
    var l := line + [NUL];
    assert m[..|line| + 1] == l;
    assert Terminated(l, 0) by {
      assert l[|line|] == NUL;
    }
    assert Terminated(m, 0) by {
      assert m[|line|] == NUL;
    }
    var f := FirstNul(l, 0);
    CStrIs(m, 0, f);
  }
}
