/** What the adapter makes of each text the device prints: every banner has one class, however it is
    spelled, and reads as that class through echo, line feeds and search progress
    (core/adapter/src/response.rs). */
module Verdicts {
  import opened Wrappers
  import opened Text
  import opened Hex
  import opened Response
  import opened Conversation
  import opened Elm
  import opened Headers

  // ---- Banners ----

  /** The class of a banner by its letters and digits. */
  function Meaning(letters: string): Option<ResponseClass> {
    if letters == "UNABLETOCONNECT" || letters == "NABLETOCONNECT" || letters == "NABLETO" then Some(UnableToConnect)
    else if letters == "NODATA" then Some(NoData)
    else if letters == "BUFFERFULL" then Some(BufferFull)
    else if letters == "STOPPED" then Some(Stopped)
    else if letters == "BUSINITERROR" || letters == "BUSINITERR" || letters == "BUSINITBUS" then Some(BusError)
    else if letters == "BUSBUSY" || letters == "BUSERROR" || letters == "CANERROR" then Some(BusError)
    else if letters == "FBERROR" || letters == "DATAERROR" || letters == "RXERROR" then Some(BusError)
    else if letters == "ERROR" || ("ERR" <= letters && |letters| <= 5) then Some(AdapterError)
    else None
  }

  /** Letters that hold none of the words looked for before `BUSINIT`. */
  predicate NoEarlyWord(l: string) {
    && !Contains(l, "UNABLETOCONNECT") && !Contains(l, "NABLETO") && !Contains(l, "NODATA")
    && !Contains(l, "BUFFERFULL") && !Contains(l, "STOPPED")
  }

  lemma Lacks(l: string, word: string, k: nat)
    requires k < |word| && word[k] !in l
    ensures !Contains(l, word)
  {
    LacksCharacter(l, word, word[k]);
  }

  /** It starts with the word. */
  lemma Starts(l: string, word: string)
    requires word <= l
    ensures Contains(l, word)
  {
    assert OccursAt(l, word, 0);
  }

  lemma EarlyWords()
    ensures Contains("UNABLETOCONNECT", "UNABLETOCONNECT") && Contains("NABLETOCONNECT", "NABLETO") && Contains("NABLETO", "NABLETO")
    ensures Contains("NODATA", "NODATA") && !Contains("NODATA", "UNABLETOCONNECT") && !Contains("NODATA", "NABLETO")
  {
    hide Contains;
    Starts("UNABLETOCONNECT", "UNABLETOCONNECT");
    Starts("NABLETOCONNECT", "NABLETO");
    Starts("NABLETO", "NABLETO");
    Starts("NODATA", "NODATA");
    ShortContains("NODATA", "UNABLETOCONNECT");
    ShortContains("NODATA", "NABLETO");
  }

  lemma OverrunWords()
    ensures Contains("BUFFERFULL", "BUFFERFULL")
    ensures !Contains("BUFFERFULL", "UNABLETOCONNECT") && !Contains("BUFFERFULL", "NABLETO") && !Contains("BUFFERFULL", "NODATA")
    ensures Contains("STOPPED", "STOPPED") && !Contains("STOPPED", "BUFFERFULL")
    ensures !Contains("STOPPED", "UNABLETOCONNECT") && !Contains("STOPPED", "NABLETO") && !Contains("STOPPED", "NODATA")
  {
    hide Contains;
    Starts("BUFFERFULL", "BUFFERFULL");
    ShortContains("BUFFERFULL", "UNABLETOCONNECT");
    Lacks("BUFFERFULL", "NABLETO", 0);
    Lacks("BUFFERFULL", "NODATA", 0);
    Starts("STOPPED", "STOPPED");
    ShortContains("STOPPED", "BUFFERFULL");
    ShortContains("STOPPED", "UNABLETOCONNECT");
    Lacks("STOPPED", "NABLETO", 0);
    Lacks("STOPPED", "NODATA", 0);
  }

  lemma InitWords(l: string)
    requires l == "BUSINITERROR" || l == "BUSINITERR" || l == "BUSINITBUS"
    ensures NoEarlyWord(l) && Contains(l, "BUSINIT") && (l != "BUSINITBUS" ==> Contains(l, "ERR"))
  {
    hide Contains;
    ShortContains(l, "UNABLETOCONNECT");
    Lacks(l, "NABLETO", 1);
    Lacks(l, "NODATA", 3);
    Lacks(l, "BUFFERFULL", 2);
    Lacks(l, "STOPPED", 3);
    Starts(l, "BUSINIT");
    if l != "BUSINITBUS" {
      InitError(l);
    }
  }

  lemma InitError(l: string)
    requires l == "BUSINITERROR" || l == "BUSINITERR"
    ensures Contains(l, "ERR")
  {
    assert l[7..10] == "ERR";
    assert OccursAt(l, "ERR", 7);
  }

  lemma BusWords(l: string)
    requires l == "BUSBUSY" || l == "BUSERROR"
    ensures NoEarlyWord(l) && !Contains(l, "BUSINIT") && Contains(l, l)
  {
    hide Contains;
    ShortContains(l, "UNABLETOCONNECT");
    Lacks(l, "NABLETO", 0);
    Lacks(l, "NODATA", 0);
    Lacks(l, "BUFFERFULL", 2);
    Lacks(l, "STOPPED", 3);
    Lacks(l, "BUSINIT", 3);
    Starts(l, l);
  }

  lemma ErrorWords(l: string)
    requires l == "CANERROR" || l == "FBERROR" || l == "DATAERROR" || l == "RXERROR"
    ensures NoEarlyWord(l) && !Contains(l, "BUSINIT") && Contains(l, l)
  {
    hide Contains;
    ShortContains(l, "UNABLETOCONNECT");
    Lacks(l, "NABLETO", 3);
    if l == "CANERROR" {
      Lacks(l, "NODATA", 2);
    } else {
      Lacks(l, "NODATA", 0);
    }
    ShortContains(l, "BUFFERFULL");
    Lacks(l, "STOPPED", 0);
    Lacks(l, "BUSINIT", 1);
    Starts(l, l);
  }

  /** Nothing looked for fits in five letters but the words for an error itself. */
  lemma FewLetters(l: string)
    requires |l| <= 5
    ensures NoEarlyWord(l) && !Contains(l, "BUSINIT") && !Contains(l, "BUSBUSY") && !Contains(l, "BUSERROR")
    ensures !Contains(l, "CANERROR") && !Contains(l, "FBERROR") && !Contains(l, "DATAERROR") && !Contains(l, "RXERROR")
  {
  }

  lemma {:induction false} NoLetters(line: string)
    requires forall i :: 0 <= i < |line| ==> line[i] == '?'
    ensures Squash(line) == []
  {
    if line != [] {
      NoLetters(line[1..]);
    }
  }

  /** However a banner is spelled - in any case, with any spaces, dots and colons - its letters decide. */
  lemma BannerMeans(line: string)
    requires Meaning(Squash(line)).Some?
    ensures FailureOf(line) == Meaning(Squash(line))
  {
    hide Squash, Contains;
    var l := Squash(line);
    if forall i :: 0 <= i < |line| ==> line[i] == '?' {
      NoLetters(line);
      assert false;
    }
    EarlyWords();
    OverrunWords();
    if l == "BUSINITERROR" || l == "BUSINITERR" || l == "BUSINITBUS" {
      InitWords(l);
    } else if l == "BUSBUSY" || l == "BUSERROR" {
      BusWords(l);
    } else if l == "CANERROR" || l == "FBERROR" || l == "DATAERROR" || l == "RXERROR" {
      ErrorWords(l);
    } else if |l| <= 5 {
      FewLetters(l);
    }
  }

  lemma MarksMean(line: string)
    requires line != [] && forall i :: 0 <= i < |line| ==> line[i] == '?'
    ensures FailureOf(line) == Some(NotUnderstood)
  {
  }

  // ---- Several lines ----

  /** The first failing line decides for the whole reply. */
  lemma {:induction false} FirstFailureDecides(lines: seq<string>, i: nat)
    requires i < |lines| && FailureOf(lines[i]).Some? && forall j :: 0 <= j < i ==> FailureOf(lines[j]).None?
    ensures Classify(lines, true) == FailureOf(lines[i]).value
  {
    hide FailureOf;
    FirstFailing(lines, i);
  }

  lemma {:induction false} FirstFailing(lines: seq<string>, i: nat)
    requires i < |lines| && FailureOf(lines[i]).Some? && forall j :: 0 <= j < i ==> FailureOf(lines[j]).None?
    ensures FirstFailure(lines) == FailureOf(lines[i])
  {
    hide FailureOf;
    if i > 0 {
      FirstFailing(lines[1..], i - 1);
    }
  }

  // ---- Through the text ----

  /** The text of a one-line reply, a search reported before it or not. */
  function OneLineText(command: string, echo: bool, linefeeds: bool, searching: bool, line: string): string {
    ReplyText(command, echo, linefeeds, Banner(searching) + [line])
  }

  /** What one printed line comes to: its own class, unless it reads as the command and is taken for the
      echo, which leaves nothing. */
  lemma OneLineReads(command: string, echo: bool, linefeeds: bool, searching: bool, line: string)
    requires IsCommand(command) && CleanLine(line) && !IsSearching(line)
    ensures var r := Understood(command, OneLineText(command, echo, linefeeds, searching, line));
            && r.lines == (if Normalize(line) == Normalize(command) then [] else [line])
            && r.classified == (if Normalize(line) == Normalize(command) then NoData else Classify([line], true))
            && (Normalize(command) != "SEARCHING..." ==> r.searched == searching)
  {
    hide ParseReply, ReplyText, CleanLine, Classify, Normalize, IsSearching, Banner;
    var all := Banner(searching) + [line];
    BannerClean();
    OnlyClean(searching, line);
    ParsePrinted(command, echo, linefeeds, all);
    BannerDropped([line], searching, Normalize(command));
    CleanNotEmpty(line);
    OneKept(line, Normalize(command));
    PromptEnds(command, echo, linefeeds, all);
    NothingIsSilence();
  }

  lemma CleanNotEmpty(line: string)
    requires CleanLine(line)
    ensures line != []
  {
  }

  lemma NothingIsSilence()
    ensures Classify([], true) == NoData
  {
  }

  lemma OnlyClean(searching: bool, line: string)
    requires CleanLine(line) && CleanLine("SEARCHING...")
    ensures forall i :: 0 <= i < |Banner(searching) + [line]| ==> CleanLine((Banner(searching) + [line])[i])
  {
    hide CleanLine;
  }

  lemma OneKept(line: string, echo: string)
    requires line != [] && !IsSearching(line)
    ensures Contents([line], echo) == if Normalize(line) == echo then [] else [line]
    ensures SearchCount([line], echo) == 0
  {
    hide Normalize, IsSearching;
    assert [line][1..] == [];
  }

  /** A failure banner reads as its own class, whatever the settings; only a command spelled like the
      banner takes it for its echo. */
  lemma BannerReads(command: string, echo: bool, linefeeds: bool, searching: bool, line: string)
    requires IsCommand(command) && CleanLine(line) && !IsSearching(line) && Meaning(Squash(line)).Some?
    ensures Understood(command, OneLineText(command, echo, linefeeds, searching, line)).classified
         == if Normalize(line) == Normalize(command) then NoData else Meaning(Squash(line)).value
  {
    hide Understood, OneLineText, CleanLine, Normalize, IsSearching, Meaning, Squash, Classify, FailureOf;
    OneLineReads(command, echo, linefeeds, searching, line);
    BannerMeans(line);
    FirstFailureDecides([line], 0);
  }

  // ---- What this device prints ----

  /** One letter tells a line from a search report. */
  lemma OtherLetter(line: string, k: nat)
    requires k < |line| && k < |"SEARCHING"| && Upper(line[k]) != "SEARCHING..."[k]
    ensures !IsSearching(line)
  {
    hide UpperAll;
    assert UpperAll(line)[k] == Upper(line[k]);
    assert "SEARCHING"[k] == "SEARCHING..."[k];
  }

  lemma Words(a: string, b: string)
    requires a != [] && b != [] && a[0] != 'S'
    requires forall i :: 0 <= i < |a| ==> 'A' <= a[i] <= 'Z'
    requires forall i :: 0 <= i < |b| ==> 'A' <= b[i] <= 'Z'
    ensures CleanLine(a + " " + b) && !IsSearching(a + " " + b) && Squash(a + " " + b) == a + b
  {
    hide Squash, CleanLine, IsSearching;
    TwoWords(a, b);
    WordsClean(a + " " + b);
    OtherLetter(a + " " + b, 0);
  }

  lemma PrintedBanners()
    ensures Squash("NO DATA") == "NODATA" && CleanLine("NO DATA") && !IsSearching("NO DATA")
    ensures Squash("BUFFER FULL") == "BUFFERFULL" && CleanLine("BUFFER FULL") && !IsSearching("BUFFER FULL")
    ensures Squash("CAN ERROR") == "CANERROR" && CleanLine("CAN ERROR") && !IsSearching("CAN ERROR")
  {
    hide Squash, CleanLine, IsSearching;
    Words("NO", "DATA");
    Words("BUFFER", "FULL");
    Words("CAN", "ERROR");
    assert "NO" + " " + "DATA" == "NO DATA" && "NO" + "DATA" == "NODATA";
    assert "BUFFER" + " " + "FULL" == "BUFFER FULL" && "BUFFER" + "FULL" == "BUFFERFULL";
    assert "CAN" + " " + "ERROR" == "CAN ERROR" && "CAN" + "ERROR" == "CANERROR";
  }

  lemma StoppedBanner()
    ensures Squash("STOPPED") == "STOPPED" && CleanLine("STOPPED") && !IsSearching("STOPPED")
  {
    hide Squash, CleanLine, IsSearching;
    SquashLetters("STOPPED");
    WordsClean("STOPPED");
    OtherLetter("STOPPED", 1);
  }

  lemma ConnectBanner()
    ensures Squash("UNABLE TO CONNECT") == "UNABLETOCONNECT" && CleanLine("UNABLE TO CONNECT") && !IsSearching("UNABLE TO CONNECT")
  {
    hide Squash, CleanLine, IsSearching;
    TwoWords("UNABLE", "TO");
    SquashAppend("UNABLE TO", " CONNECT");
    SquashAppend(" ", "CONNECT");
    SquashBlank();
    SquashLetters("CONNECT");
    assert "UNABLE" + " " + "TO" == "UNABLE TO" && "UNABLE TO" + " CONNECT" == "UNABLE TO CONNECT" && " " + "CONNECT" == " CONNECT";
    assert "UNABLE" + "TO" + ("" + "CONNECT") == "UNABLETOCONNECT";
    WordsClean("UNABLE TO CONNECT");
    OtherLetter("UNABLE TO CONNECT", 0);
  }

  /** The texts the emulator answers a request with when no module did: each reads as what it says. */
  lemma SilenceReads(command: string, echo: bool, linefeeds: bool, searching: bool)
    requires IsCommand(command)
    ensures Understood(command, OneLineText(command, echo, linefeeds, searching, "NO DATA")).classified == NoData
    ensures Understood(command, OneLineText(command, echo, linefeeds, searching, "UNABLE TO CONNECT")).classified
         == if Normalize(command) == "UNABLETOCONNECT" then NoData else UnableToConnect
    ensures Understood(command, OneLineText(command, echo, linefeeds, searching, "CAN ERROR")).classified
         == if Normalize(command) == "CANERROR" then NoData else BusError
  {
    hide Understood, OneLineText, CleanLine, Normalize, IsSearching, Squash;
    PrintedBanners();
    ConnectBanner();
    SpacedWords();
    ConnectWords();
    BannerReads(command, echo, linefeeds, searching, "NO DATA");
    BannerReads(command, echo, linefeeds, searching, "UNABLE TO CONNECT");
    BannerReads(command, echo, linefeeds, searching, "CAN ERROR");
  }

  lemma SpacedWords()
    ensures Normalize("NO DATA") == "NODATA" && Normalize("CAN ERROR") == "CANERROR" && Normalize("BUFFER FULL") == "BUFFERFULL"
  {
    hide Normalize;
    JoinedWords("NO", "DATA");
    JoinedWords("CAN", "ERROR");
    JoinedWords("BUFFER", "FULL");
    assert "NO" + " " + "DATA" == "NO DATA" && "NO" + "DATA" == "NODATA";
    assert "BUFFER" + " " + "FULL" == "BUFFER FULL" && "BUFFER" + "FULL" == "BUFFERFULL";
    assert "CAN" + " " + "ERROR" == "CAN ERROR" && "CAN" + "ERROR" == "CANERROR";
  }

  lemma ConnectWords()
    ensures Normalize("UNABLE TO CONNECT") == "UNABLETOCONNECT"
  {
    hide Normalize;
    ThreeWords("UNABLE", "TO", "CONNECT");
    assert "UNABLE" + " " + "TO" + " " + "CONNECT" == "UNABLE TO CONNECT" && "UNABLE" + "TO" + "CONNECT" == "UNABLETOCONNECT";
  }

  lemma ThreeWords(a: string, b: string, c: string)
    requires Plain(a) && Plain(b) && Plain(c)
    ensures Normalize(a + " " + b + " " + c) == a + b + c
  {
    hide Normalize;
    NormalizeAppend(a + " " + b + " ", c);
    NormalizeAppend(a + " " + b, " ");
    JoinedWords(a, b);
    BlankNormal();
    PlainIsNormal(c);
    assert a + b + "" == a + b;
  }

  lemma BlankNormal()
    ensures Normalize(" ") == ""
  {
    assert " "[1..] == "";
    assert Unspaced(" ") == "";
  }

  lemma JoinedWords(a: string, b: string)
    requires Plain(a) && Plain(b)
    ensures Normalize(a + " " + b) == a + b
  {
    hide Normalize;
    NormalizeAppend(a + " ", b);
    NormalizeAppend(a, " ");
    BlankNormal();
    PlainIsNormal(a);
    PlainIsNormal(b);
    assert a + "" == a;
  }

  /** How an injected fault is to be read. */
  function FaultClass(fault: InjectedFault): ResponseClass {
    match fault
    case Silence => Timeout
    case BufferFullFault => BufferFull
    case StoppedFault => Stopped
    case NotUnderstoodFault => NotUnderstood
    case BusErrorFault => BusError
  }

  /** How a fault's line compares with a command. */
  function Spelling(fault: InjectedFault): string
    requires !fault.Silence?
  {
    match fault
    case BufferFullFault => "BUFFERFULL"
    case StoppedFault => "STOPPED"
    case NotUnderstoodFault => "?"
    case BusErrorFault => "CANERROR"
  }

  /** An injected fault reads as exactly its class, at any settings; only a command spelled like the
      fault's line takes it for its echo. */
  lemma FaultReads(d: Device, command: string, fault: InjectedFault)
    requires IsCommand(command)
    ensures Understood(command, FaultText(d, command, fault)).classified
         == if !fault.Silence? && Normalize(command) == Spelling(fault) then NoData else FaultClass(fault)
  {
    hide Understood, CleanLine, Normalize, IsSearching, Squash, ReplyText;
    PrintedBanners();
    StoppedBanner();
    SpacedWords();
    PlainIsNormal("STOPPED");
    match fault
    case Silence => SilentText(command);
    case BufferFullFault => BannerReads(command, d.echo, d.linefeeds, false, "BUFFER FULL"); NoSearch("BUFFER FULL");
    case StoppedFault => BannerReads(command, d.echo, d.linefeeds, false, "STOPPED"); NoSearch("STOPPED");
    case NotUnderstoodFault => MarkReads(command, d.echo, d.linefeeds);
    case BusErrorFault => BannerReads(command, d.echo, d.linefeeds, false, "CAN ERROR"); NoSearch("CAN ERROR");
  }

  lemma NoSearch(line: string)
    ensures Banner(false) + [line] == [line]
  {
  }

  lemma SilentText(command: string)
    ensures Understood(command, "").classified == Timeout
  {
    hide Kept, SplitLines, ProgressCount, FirstFailure;
  }

  /** A refusal. */
  lemma MarkReads(command: string, echo: bool, linefeeds: bool)
    requires IsCommand(command)
    ensures Understood(command, ReplyText(command, echo, linefeeds, ["?"])).classified
         == if Normalize(command) == "?" then NoData else NotUnderstood
  {
    hide Understood, CleanLine, Normalize, ReplyText, Classify, FailureOf;
    WordsClean("?");
    PlainIsNormal("?");
    MarkIsNoSearch();
    NoSearch("?");
    OneLineReads(command, echo, linefeeds, false, "?");
    MarksMean("?");
    FirstFailureDecides(["?"], 0);
  }

  lemma MarkIsNoSearch()
    ensures !IsSearching("?")
  {
    assert |UpperAll("?")| == 1;
  }

  /** `OK` is an acknowledgement. */
  lemma OkReads(command: string, echo: bool, linefeeds: bool)
    requires IsCommand(command)
    ensures Understood(command, ReplyText(command, echo, linefeeds, ["OK"])).classified == if Normalize(command) == "OK" then NoData else Ok
  {
    hide Understood, CleanLine, Normalize, ReplyText, FailureOf;
    WordsClean("OK");
    PlainIsNormal("OK");
    UpperSame("OK");
    NoSearch("OK");
    OkIsNoFailure();
    OneLineReads(command, echo, linefeeds, false, "OK");
    OkIsOk();
  }

  lemma OkIsOk()
    requires FailureOf("OK").None?
    ensures Classify(["OK"], true) == Ok
  {
    hide FailureOf;
    UpperSame("OK");
    assert ["OK"][1..] == [];
  }

  /** A banner the adapter can read, that has a character no hexadecimal line has and is not `OK`, is
      information. */
  lemma BannerIsInfo(command: string, echo: bool, linefeeds: bool, banner: string)
    requires IsCommand(command) && ReadableBanner(banner) && Normalize(banner) != Normalize(command) && UpperAll(banner) != "OK"
    requires exists c :: c in banner && !IsWhitespace(c) && !IsHexDigit(c) && c != ':'
    ensures Understood(command, ReplyText(command, echo, linefeeds, [banner])).classified == Info
  {
    hide Understood, CleanLine, Normalize, ReplyText, FailureOf, IsSearching, IsHexLine;
    NoSearch(banner);
    OneLineReads(command, echo, linefeeds, false, banner);
    NotHexLine(banner);
    assert [banner][1..] == [];
    assert FirstFailure([banner]) == None;
  }

  lemma NotHexLine(line: string)
    requires exists c :: c in line && !IsWhitespace(c) && !IsHexDigit(c) && c != ':'
    ensures !IsHexLine(line)
  {
    hide IsHexLine;
    if IsHexLine(line) {
      HexLineCharacters(line);
      assert false;
    }
  }
}
