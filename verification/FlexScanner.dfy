/** The scanner: a buffer refilled in pieces of any size, scanned by the automaton up to the
    end-of-buffer characters that follow its contents. */
module FlexScanner {
  import opened Options
  import opened ByteStrings
  import opened ScannerTables
  import opened LexSpec
  import opened ScannerRuns

  const YY_READ_BUF_SIZE: nat := 8192
  const YY_END_OF_BUFFER: nat := 13

  datatype BufferStatus = New | Normal | EofPending

  datatype Refill = EndOfFile | ContinueScan | LastMatch

  /** One transition, following the defaults. */
  method StepTables(state0: nat, c: nat) returns (state: nat)
    requires State(state0) && c <= 12
    ensures state == Delta(state0, c)
  {
    hide Delta;
    TablesDecode(state0, c);
    state := state0;
    while YY_CHK[YY_BASE[state] + c] != state
      invariant State(state) && TableStep(state, c) == TableStep(state0, c)
      decreases if state == 16 then 2 else if state == JAM then 0 else 1
    {
      state := YY_DEF[state];
    }
    state := YY_NXT[YY_BASE[state] + c];
  }

  class Scanner {
    var chBuf: array<Byte>
    var bufSize: nat
    var nChars: nat
    var textPtr: nat
    var cBufP: nat
    var holdChar: Byte
    var status: BufferStatus
    var lastState: nat        // yy_last_accepting_state
    var lastCpos: nat         // yy_last_accepting_cpos
    var unread: Bytes          // what the input still holds
    var wishes: seq<nat>      // how much each read delivers, if it can
    var printed: Bytes         // the characters reported as unrecognized

    ghost predicate Buffer()
      reads this, chBuf
    {
      && 0 < bufSize && chBuf.Length == bufSize + 2 && textPtr <= nChars <= bufSize
      && chBuf[nChars] == 0 && chBuf[nChars + 1] == 0
    }

    /** The buffer from the current token on, followed by the unread input, is s. */
    ghost predicate Holds(s: Bytes)
      reads this, chBuf
    {
      Buffer() && chBuf[textPtr..nChars] + unread == s
    }

    /** The last accepting state passed in the first i characters is remembered. */
    ghost predicate Remembers(s: Bytes, i: nat)
      reads this
    {
      i <= |s| && (Last(s, i) > 0 ==> lastCpos == textPtr + Last(s, i) && lastState == Path(s, Last(s, i)))
    }

    /** The automaton is in a state of the run over the token, which need not be noted yet. */
    ghost predicate At(s: Bytes, state: nat, cp: nat)
      reads this, chBuf
    {
      && Holds(s) && textPtr <= cp <= nChars && State(state)
      && state == Path(s, cp - textPtr) && state != JAM
      && (Accept(state) == 0 ==> Remembers(s, cp - textPtr))
    }

    lemma CharAt(s: Bytes, cp: nat)
      requires Holds(s) && textPtr <= cp < nChars
      ensures cp - textPtr < |s| && chBuf[cp] == s[cp - textPtr]
    {
    }

    /** The end-of-buffer character was read: real, or at the end of the buffer. */
    ghost predicate NulSeen(s: Bytes, cp: nat)
      reads this, chBuf
    {
      Holds(s) && textPtr < cp <= nChars + 1 && chBuf[cp - 1] == 0 && Path(s, cp - 1 - textPtr) != JAM
    }

    /** A decision about the token: the winning match, or the end-of-buffer character. */
    ghost predicate Decided(s: Bytes, act: nat, cp: nat)
      reads this, chBuf
    {
      if act == YY_END_OF_BUFFER then NulSeen(s, cp)
      else Holds(s) && s != [] && act == MatchRule(s) && cp == textPtr + MatchLength(s) <= nChars
    }

    /** What is known after a transition to a state. */
    ghost predicate Arrived(s: Bytes, state: nat, cp: nat)
      reads this, chBuf
    {
      match state
      case 3 => NulSeen(s, cp)
      case 18 => State(lastState) && Decided(s, Accept(lastState), lastCpos)
      case _ => At(s, state, cp) && (4 <= state <= 13 ==> Decided(s, Accept(state), cp))
    }

    method Note(state: nat, cp: nat)
      requires State(state)
      modifies `lastState, `lastCpos
      ensures Accept(state) != 0 ==> lastState == state && lastCpos == cp
      ensures Accept(state) == 0 ==> lastState == old(lastState) && lastCpos == old(lastCpos)
    {
      AcceptDecodes(state);
      if YY_ACCEPT[state] != 0 {
        lastState, lastCpos := state, cp;
      }
    }

    lemma StuckDecides(s: Bytes, state: nat, cp: nat)
      requires At(s, state, cp) && s != [] && Stuck(s, cp - textPtr)
      ensures Accept(state) != 0 ==> Decided(s, Accept(state), cp)
      ensures Remembers(s, cp - textPtr) ==> State(lastState) && Decided(s, Accept(lastState), lastCpos)
                                             && Accept(lastState) != YY_END_OF_BUFFER
    {
      StuckMatches(s, cp - textPtr);
    }

    lemma Arrives(s: Bytes, state: nat, cp: nat)
      requires At(s, state, cp) && Remembers(s, cp - textPtr) && cp < nChars && chBuf[cp] != 0
      ensures Arrived(s, Delta(state, Ec(chBuf[cp])), cp + 1)
      ensures Delta(state, Ec(chBuf[cp])) == JAM ==> Accept(lastState) != YY_END_OF_BUFFER
    {
      hide Buffer, Decided, Ec;
      CharAt(s, cp);
      var i := cp - textPtr;
      var next := Path(s, i + 1);
      if next == JAM {
        StuckDecides(s, state, cp);
      } else if 4 <= next <= 13 {
        assert Stuck(s, i + 1);
        StuckDecides(s, next, cp + 1);
      }
    }

    lemma NextAt(s: Bytes, state: nat, cp: nat)
      requires At(s, state, cp) && cp < nChars && (Accept(state) != 0 ==> lastState == state && lastCpos == cp)
      ensures var i := cp - textPtr;
              && i < |s| && Path(s, i + 1) == Delta(state, TextClass(chBuf[cp]))
              && (Path(s, i + 1) != JAM ==> At(s, Path(s, i + 1), cp + 1))
    {
      CharAt(s, cp);
    }

    lemma ArrivesOnNul(s: Bytes, state: nat, cp: nat)
      requires At(s, state, cp) && chBuf[cp] == 0
      ensures Delta(state, NUL_CLASS) == AT_NUL && NulSeen(s, cp + 1)
    {
    }

    /** Where a transition arrives, from a state that has been noted. */
    lemma RoundArrives(s: Bytes, state: nat, cp: nat)
      requires At(s, state, cp) || (state == AT_NUL && NulSeen(s, cp))
      requires Accept(state) != 0 ==> lastState == state && lastCpos == cp
      ensures cp < chBuf.Length
      ensures var t := Delta(state, Ec(chBuf[cp]));
              && State(t) && Arrived(s, t, cp + 1) && (state == AT_NUL ==> t == JAM)
              && (t == JAM && Accept(lastState) == YY_END_OF_BUFFER ==> state == AT_NUL && lastCpos == cp)
    {
      if state != AT_NUL {
        if chBuf[cp] == 0 {
          ArrivesOnNul(s, state, cp);
        } else {
          Arrives(s, state, cp);
        }
      }
    }

    /** One round of yy_match. */
    method Round(state0: nat, cp0: nat, ghost s: Bytes) returns (state: nat, cp: nat)
      requires At(s, state0, cp0) || (state0 == AT_NUL && NulSeen(s, cp0))
      modifies `lastState, `lastCpos
      ensures State(state) && Arrived(s, state, cp) && (state0 == AT_NUL ==> state == JAM) && cp == cp0 + 1
      ensures state == JAM && Accept(lastState) == YY_END_OF_BUFFER ==> state0 == AT_NUL && lastCpos == cp0
    {
      hide Ec, Delta, Accept, Arrived, Path;
      var c := Ec(chBuf[cp0]);
      Note(state0, cp0);
      RoundArrives(s, state0, cp0);
      state := StepTables(state0, c);
      cp := cp0 + 1;
    }

    /** The action of the state, or of the last state that has one, can be taken. */
    ghost predicate CanAct(s: Bytes, state: nat, cp: nat)
      reads this, chBuf
    {
      && State(state)
      && (Accept(state) != 0 ==> Decided(s, Accept(state), cp))
      && (Accept(state) == 0 ==> State(lastState) && Decided(s, Accept(lastState), lastCpos))
    }

    /** yy_find_action: the action of a state, or of the last state that has one. */
    method FindAction(state: nat, cp0: nat, ghost s: Bytes) returns (act: nat, cp: nat)
      requires CanAct(s, state, cp0)
      ensures Decided(s, act, cp)
      ensures if Accept(state) != 0 then act == Accept(state) && cp == cp0
              else act == Accept(lastState) && cp == lastCpos
    {
      AcceptDecodes(state);
      act, cp := YY_ACCEPT[state], cp0;
      if act == 0 {
        cp := lastCpos;
        AcceptDecodes(lastState);
        act := YY_ACCEPT[lastState];
      }
    }

    /** yy_match: the automaton runs until no further transition can matter. */
    method MatchFrom(state0: nat, cp0: nat, ghost s: Bytes) returns (act: nat, cp: nat)
      requires At(s, state0, cp0)
      modifies `lastState, `lastCpos
      ensures Decided(s, act, cp) && (act == YY_END_OF_BUFFER ==> cp > cp0)
    {
      hide Buffer, Holds, Decided, Path, Remembers;
      var state;
      state, cp := Round(state0, cp0, s);
      Stops(state);
      while GoesOn(state)
        invariant State(state) && Arrived(s, state, cp) && cp > cp0
        invariant GoesOn(state) <==> state in {1, 3, 14, 15, 16, 17}
        invariant state == JAM && Accept(lastState) == YY_END_OF_BUFFER ==> lastCpos > cp0
        decreases if state == JAM then 0 else 1, nChars + 2 - cp
      {
        state, cp := Round(state, cp, s);
        Stops(state);
      }
      act, cp := FindAction(state, cp, s);
    }

    // ---- resuming after the end-of-buffer character ----------------------------------------

    /** One transition over text already matched; a NUL there is like any other character. */
    method Reread(state0: nat, cp: nat, ghost s: Bytes) returns (state: nat)
      requires At(s, state0, cp) && cp < nChars && Path(s, cp + 1 - textPtr) != JAM
      modifies `lastState, `lastCpos
      ensures At(s, state, cp + 1)
    {
      hide Ec, Delta, Accept;
      var c := if chBuf[cp] != 0 then Ec(chBuf[cp]) else OTHER_CLASS;
      Note(state0, cp);
      NextAt(s, state0, cp);
      state := StepTables(state0, c);
    }

    /** yy_get_previous_state: runs the automaton again over the text matched so far. */
    method PreviousState(ghost s: Bytes) returns (state: nat)
      requires Holds(s) && textPtr <= cBufP <= nChars && Path(s, cBufP - textPtr) != JAM
      modifies `lastState, `lastCpos
      ensures At(s, state, cBufP)
    {
      hide Ec, Delta, Accept, Last;
      state := START;
      var cp := textPtr;
      AtStart(s);
      while cp < cBufP
        invariant textPtr <= cp <= cBufP && At(s, state, cp)
      {
        AliveBefore(s, cp + 1 - textPtr, cBufP - textPtr);
        state := Reread(state, cp, s);
        cp := cp + 1;
      }
    }

    lemma AtStart(s: Bytes)
      requires Holds(s)
      ensures At(s, START, textPtr)
    {
    }

    lemma StuckCanAct(s: Bytes, state: nat, cp: nat)
      requires At(s, state, cp) && s != [] && Stuck(s, cp - textPtr)
      ensures CanAct(s, state, cp) && Accept(state) != YY_END_OF_BUFFER
      ensures Accept(state) == 0 ==> Accept(lastState) != YY_END_OF_BUFFER
    {
      StuckDecides(s, state, cp);
      StuckMatches(s, cp - textPtr);
    }

    /** yy_try_NUL_trans: a transition on a NUL that is part of the text. */
    method TryNulTrans(state: nat, ghost s: Bytes) returns (next: nat)
      requires At(s, state, cBufP) && cBufP < nChars && chBuf[cBufP] == 0
      modifies `lastState, `lastCpos
      ensures next != 0 ==> At(s, next, cBufP + 1)
      ensures next == 0 ==> CanAct(s, state, cBufP) && Accept(state) != YY_END_OF_BUFFER
                            && (Accept(state) == 0 ==> Accept(lastState) != YY_END_OF_BUFFER)
    {
      CharAt(s, cBufP);
      Note(state, cBufP);
      next := StepTables(state, OTHER_CLASS);
      if next == JAM {
        next := 0;
        StuckCanAct(s, state, cBufP);
      }
    }
  
    // ---- refilling the buffer ----------------------------------------------------------------

    /** Moves the text matched so far to the start of the buffer. */
    method MoveText(n: nat, ghost text: Bytes)
      requires textPtr + n <= chBuf.Length && chBuf[textPtr..textPtr + n] == text
      modifies chBuf
      ensures chBuf[..n] == text
    {
      var i := 0;
      while i < n
        invariant i <= n && chBuf[..i] == text[..i]
        invariant forall j :: i <= j < n ==> chBuf[textPtr + j] == text[j]
      {
        chBuf[i] := chBuf[textPtr + i];
        i := i + 1;
        assert chBuf[..i] == text[..i - 1] + [text[i - 1]];
      }
    }

    /** Doubles the buffer until there is room to read something after the first n characters. */
    method Grow(n: nat)
      requires 0 < bufSize && chBuf.Length == bufSize + 2 && n <= bufSize
      modifies `chBuf, `bufSize
      ensures bufSize >= old(bufSize) && chBuf.Length == bufSize + 2 && n + 1 < bufSize
      ensures chBuf[..n] == old(chBuf[..n]) && (chBuf == old(chBuf) || fresh(chBuf))
    {
      while bufSize - n - 1 <= 0
        invariant bufSize >= old(bufSize) && chBuf.Length == bufSize + 2 && n <= bufSize
        invariant chBuf[..n] == old(chBuf[..n]) && (chBuf == old(chBuf) || fresh(chBuf))
        decreases n + 2 - bufSize
      {
        bufSize := 2 * bufSize;
        var bigger := new Byte[bufSize + 2];
        forall i | 0 <= i < n {
          bigger[i] := chBuf[i];
        }
        assert bigger[..n] == chBuf[..n];
        chBuf := bigger;
      }
    }

    /** YY_INPUT: delivers at most max characters, and none only at the end of the input. */
    method ReadInput(at: nat, max: nat) returns (k: nat)
      requires 0 < max && at + max <= chBuf.Length
      modifies chBuf, `unread, `wishes
      ensures k <= max && k <= |old(unread)| && (k == 0 <==> old(unread) == [])
      ensures unread == old(unread)[k..] && chBuf[..at + k] == old(chBuf[..at]) + old(unread)[..k]
    {
      k := if wishes == [] then max else wishes[0];
      wishes := if wishes == [] then [] else wishes[1..];
      if k > max {
        k := max;
      }
      if k == 0 {
        k := 1;
      }
      if k > |unread| {
        k := |unread|;
      }
      forall i | 0 <= i < k {
        chBuf[at + i] := unread[i];
      }
      assert chBuf[..at + k] == old(chBuf[..at]) + unread[..k];
      unread := unread[k..];
    }
  
    /** Reads more after the first n characters, unless the end of the input was seen before. */
    method ReadMore(n: nat, ghost text: Bytes) returns (k: nat)
      requires 0 < bufSize && chBuf.Length == bufSize + 2 && n <= bufSize && chBuf[..n] == text
      requires status.EofPending? ==> unread == []
      modifies `chBuf, `bufSize, chBuf, `unread, `wishes
      ensures 0 < bufSize && chBuf.Length == bufSize + 2 && n + k <= bufSize
      ensures k <= |old(unread)| && (k == 0 <==> old(unread) == [])
      ensures unread == old(unread)[k..] && chBuf[..n + k] == text + old(unread)[..k]
      ensures chBuf == old(chBuf) || fresh(chBuf)
    {
      k := 0;
      if !status.EofPending? {
        Grow(n);
        var max := bufSize - n - 1;
        if max > YY_READ_BUF_SIZE {
          max := YY_READ_BUF_SIZE;
        }
        k := ReadInput(n, max);
      }
    }

    /** Ends the contents of the buffer with two end-of-buffer characters. */
    method EndBuffer(n: nat, ghost text: Bytes)
      requires 0 < bufSize && chBuf.Length == bufSize + 2 && n <= bufSize && chBuf[..n] == text
      modifies `nChars, `textPtr, chBuf
      ensures nChars == n && textPtr == 0 && Buffer() && chBuf[0..n] == text
    {
      nChars := n;
      chBuf[n], chBuf[n + 1] := 0, 0;
      textPtr := 0;
      assert chBuf[0..n] == chBuf[..n];
    }

    /** yy_get_next_buffer: the text from the current token on is the same afterwards; more of it
        is in the buffer, or all of it is. */
    method GetNextBuffer(ghost s: Bytes) returns (result: Refill)
      requires Holds(s) && (status.EofPending? ==> unread == [])
      modifies this, chBuf
      ensures Holds(s) && (status.EofPending? ==> unread == []) && textPtr == 0 && nChars >= old(nChars) - old(textPtr)
      ensures printed == old(printed) && (chBuf == old(chBuf) || fresh(chBuf))
      ensures match result
              case EndOfFile => s == [] && cBufP == 0 && holdChar == 0
              case ContinueScan => |unread| < |old(unread)|
              case LastMatch => s != [] && unread == [] && nChars == |s| == old(nChars) - old(textPtr)
    {
      hide Buffer, Holds;
      HoldsText(s);
      var n := nChars - textPtr;
      ghost var text, all := chBuf[textPtr..nChars], unread;
      MoveText(n, text);
      var k := ReadMore(n, text);
      if k > 0 {
        result := ContinueScan;
      } else if n == 0 {
        result := EndOfFile;
        status, cBufP, holdChar := New, 0, 0;
      } else {
        result := LastMatch;
        status := EofPending;
      }
      EndBuffer(n + k, text + all[..k]);
      TextHolds(s, text, all, k);
    }

    lemma HoldsText(s: Bytes)
      requires Holds(s)
      ensures 0 < bufSize && chBuf.Length == bufSize + 2 && textPtr <= nChars <= bufSize
      ensures s == chBuf[textPtr..nChars] + unread
    {
    }

    lemma TextHolds(s: Bytes, text: Bytes, all: Bytes, k: nat)
      requires s == text + all && k <= |all| && Buffer() && textPtr == 0 && unread == all[k..]
      requires chBuf[0..nChars] == text + all[..k]
      ensures Holds(s) && nChars == |text| + k && |s| == |text| + |all|
    {
      assert (text + all[..k]) + all[k..] == text + all;
    }
  
    // ---- tokens --------------------------------------------------------------------------------

    /** A NUL in the text: the run is resumed past it, or the text before it is the token. */
    method ResumeAtNul(cp0: nat, ghost s: Bytes) returns (act: nat, cp: nat)
      requires NulSeen(s, cp0) && cp0 <= nChars
      modifies `lastState, `lastCpos, `cBufP
      ensures Decided(s, act, cp) && (act == YY_END_OF_BUFFER ==> cp > cp0)
    {
      hide MatchRule, MatchLength, Path, Last, Decided;
      cBufP := cp0 - 1;
      var state := PreviousState(s);
      var next := TryNulTrans(state, s);
      if next != 0 {
        cBufP := cBufP + 1;
        act, cp := MatchFrom(next, cBufP, s);
      } else {
        act, cp := FindAction(state, cBufP, s);
      }
    }

    /** Resumes the run after `amount` characters. */
    method Resume(amount: nat, ghost s: Bytes) returns (act: nat, cp: nat)
      requires Holds(s) && textPtr + amount <= nChars && Path(s, amount) != JAM
      modifies `lastState, `lastCpos, `cBufP
      ensures Decided(s, act, cp)
    {
      cBufP := textPtr + amount;
      var state := PreviousState(s);
      act, cp := MatchFrom(state, cBufP, s);
    }

    /** All the text there is belongs to the token, or to what follows it. */
    method ResumeLast(ghost s: Bytes) returns (act: nat, cp: nat)
      requires Holds(s) && s != [] && unread == [] && Path(s, |s|) != JAM
      modifies `lastState, `lastCpos, `cBufP
      ensures Decided(s, act, cp) && act != YY_END_OF_BUFFER
    {
      cBufP := nChars;
      var state := PreviousState(s);
      StuckCanAct(s, state, cBufP);
      act, cp := FindAction(state, cBufP, s);
    }

    /** The end of the buffer: more is read and the run resumed, or what there is is the token. */
    method ResumeAtEnd(ghost s: Bytes) returns (act: nat, cp: nat)
      requires NulSeen(s, nChars + 1) && (status.EofPending? ==> unread == [])
      modifies this, chBuf
      ensures (status.EofPending? ==> unread == []) && printed == old(printed) && (chBuf == old(chBuf) || fresh(chBuf))
      ensures act == 0 ==> s == [] && Holds(s) && textPtr == cBufP == 0 && holdChar == 0
      ensures act != 0 ==> Decided(s, act, cp) && (act == YY_END_OF_BUFFER ==> |unread| < |old(unread)|)
    {
      hide Path, MatchRule, MatchLength;
      var amount := nChars - textPtr;
      var refill := GetNextBuffer(s);
      match refill
      case EndOfFile => act, cp := 0, 0;
      case ContinueScan => act, cp := Resume(amount, s);
      case LastMatch => act, cp := ResumeLast(s);
    }
  
    method Settle(cp: nat, ghost s: Bytes)
      requires NulSeen(s, cp)
      modifies `status
      ensures NulSeen(s, cp) && status == (if old(status).New? then Normal else old(status))
    {
      if status.New? {
        status := Normal;
      }
    }

    /** Scans one token: its rule and its end, or 0 at the end of the input. */
    method ScanToken(ghost s: Bytes) returns (act: nat, cp: nat)
      requires Holds(s) && (status.EofPending? ==> unread == [])
      modifies this, chBuf
      ensures (status.EofPending? ==> unread == []) && printed == old(printed) && (chBuf == old(chBuf) || fresh(chBuf))
      ensures act == 0 ==> s == [] && Holds(s) && textPtr == cBufP == 0 && holdChar == 0
      ensures act != 0 ==> Decided(s, act, cp) && act != YY_END_OF_BUFFER
    {
      hide Path, MatchRule, MatchLength, Holds;
      AtStart(s);
      act, cp := MatchFrom(START, textPtr, s);
      while act == YY_END_OF_BUFFER
        invariant (status.EofPending? ==> unread == []) && printed == old(printed) &&
                    (chBuf == old(chBuf) || fresh(chBuf))
        invariant Decided(s, act, cp)
        decreases act == YY_END_OF_BUFFER, |unread|, nChars + 2 - cp
      {
        Settle(cp, s);
        if cp <= nChars {
          act, cp := ResumeAtNul(cp, s);
        } else {
          act, cp := ResumeAtEnd(s);
          if act == 0 {
            return;
          }
        }
      }
    }

    // ---- between calls ---------------------------------------------------------------------------

    /** The buffer as it is without the NUL that ends the last token's text. */
    ghost function Restored(): (content: Bytes)
      requires cBufP < chBuf.Length
      reads this, chBuf
    {
      chBuf[..][cBufP := holdChar]
    }

    ghost predicate Idle()
      reads this, chBuf
    {
      && 0 < bufSize && chBuf.Length == bufSize + 2 && cBufP <= nChars <= bufSize
      && Restored()[nChars] == 0 && Restored()[nChars + 1] == 0
      && (status.EofPending? ==> unread == [])
    }

    /** What is still to be scanned. */
    ghost function Pending(): (s: Bytes)
      requires Idle()
      reads this, chBuf
    {
      Restored()[cBufP..nChars] + unread
    }

    constructor (input: Bytes, sizes: seq<nat>, size: nat)
      requires 0 < size
      ensures Idle() && Pending() == input && printed == [] && fresh(chBuf)
    {
      var buf := new Byte[size + 2];
      buf[0], buf[1] := 0, 0;
      chBuf, bufSize, nChars, textPtr, cBufP := buf, size, 0, 0, 0;
      holdChar, status, lastState, lastCpos := 0, New, START, 0;
      unread, wishes, printed := input, sizes, [];
    }

    method Begin()
      requires Idle()
      modifies `textPtr, chBuf
      ensures Holds(old(Pending()))
    {
      chBuf[cBufP] := holdChar;
      assert chBuf[..] == old(Restored());
      textPtr := cBufP;
      assert chBuf[textPtr..nChars] == chBuf[..][textPtr..nChars];
    }

    /** YY_DO_BEFORE_ACTION: the token's text is ended by a NUL, and what was there kept. */
    method Finish(n: nat, ghost s: Bytes) returns (text: Bytes)
      requires Holds(s) && textPtr + n <= nChars && (status.EofPending? ==> unread == [])
      modifies `cBufP, `holdChar, chBuf
      ensures Idle() && Pending() == s[n..] && text == s[..n]
    {
      var cp := textPtr + n;
      text := chBuf[textPtr..cp];
      ghost var content := chBuf[..];
      holdChar := chBuf[cp];
      chBuf[cp] := 0;
      cBufP := cp;
      assert Restored() == content;
      assert content[cp..nChars] == content[textPtr..nChars][n..];
    }
  
    lemma IdleAtEnd()
      requires Holds([]) && textPtr == cBufP == 0 && holdChar == 0 && (status.EofPending? ==> unread == [])
      ensures Idle() && Pending() == []
    {
      assert Restored() == chBuf[..];
    }

    /** The winning match is taken from what is pending; act is 0 at the end of the input. */
    method MatchOnce() returns (act: nat, text: Bytes)
      requires Idle()
      modifies this, chBuf
      ensures Idle() && (chBuf == old(chBuf) || fresh(chBuf)) && printed == old(printed)
      ensures act == 0 ==> old(Pending()) == [] && Pending() == []
      ensures act != 0 ==> old(Pending()) != [] && Taken(old(Pending()), act, text, Pending())
    {
      hide MatchLength, MatchRule, Path;
      ghost var s := Pending();
      Begin();
      var cp;
      act, cp := ScanToken(s);
      if act == 0 {
        text := [];
        IdleAtEnd();
      } else {
        text := Finish(cp - textPtr, s);
      }
    }

    /** One match and its action: Some(token), nothing for a space or an unrecognized character,
        and done at the end of the input. */
    method ScanOnce() returns (done: bool, token: Option<Lexeme>)
      requires Idle()
      modifies this, chBuf
      ensures Idle() && (chBuf == old(chBuf) || fresh(chBuf))
      ensures done <==> old(Pending()) == []
      ensures done ==> token.None? && Pending() == [] && printed == old(printed)
      ensures !done ==> Acted(old(Pending()), token, Pending(), old(printed), printed)
    {
      var act, text := MatchOnce();
      done, token := act == 0, None;
      if !done {
        if act <= NUMBER_RULE {
          token := Some(Lexeme(act, text));
        } else if act == ANY_RULE {
          printed := printed + text;
        }
      }
    }

    /** yylex: matches until one gives a token or the input ends. */
    method Yylex() returns (token: Option<Lexeme>)
      requires Idle()
      modifies this, chBuf
      ensures Idle() && (chBuf == old(chBuf) || fresh(chBuf))
      ensures token == Next(old(Pending())).token && Pending() == Next(old(Pending())).rest
      ensures printed == old(printed) + Next(old(Pending())).reports
    {
      hide Next, Acted;
      ghost var s, r := Pending(), printed;
      var done := false;
      token := None;
      while !done && token.None?
        invariant Idle() && (chBuf == old(chBuf) || fresh(chBuf))
        invariant if done || token.Some? then Ends(s, r, token, Pending(), printed)
                    else GoesOnWith(s, r, Pending(), printed)
        decreases if done || token.Some? then 0 else 1 + |Pending()|
      {
        ghost var rest, reports := Pending(), printed;
        done, token := ScanOnce();
        if done {
          NoMore(s, r, reports);
        } else {
          OneMore(s, r, rest, reports, token, Pending(), printed);
        }
      }
    }
  }

  predicate Taken(s: Bytes, rule: nat, text: Bytes, rest: Bytes)
    requires s != []
  {
    rule == MatchRule(s) && text == s[..MatchLength(s)] && rest == s[MatchLength(s)..]
  }

  /** What the action of the winning match does. */
  predicate Acted(s: Bytes, token: Option<Lexeme>, rest: Bytes, reported: Bytes, reports: Bytes)
    requires s != []
  {
    var n, rule := MatchLength(s), MatchRule(s);
    && rest == s[n..]
    && token == (if rule <= NUMBER_RULE then Some(Lexeme(rule, s[..n])) else None)
    && reports == reported + Report(s)
  }

  /** The next token of s is that of rest, with `reports` instead of `reported` before it. */
  predicate GoesOnWith(s: Bytes, reported: Bytes, rest: Bytes, reports: Bytes) {
    var a, b := Next(s), Next(rest);
    a.token == b.token && a.rest == b.rest && reported + a.reports == reports + b.reports
  }

  predicate Ends(s: Bytes, reported: Bytes, token: Option<Lexeme>, rest: Bytes, reports: Bytes) {
    var a := Next(s);
    token == a.token && rest == a.rest && reports == reported + a.reports
  }

  lemma NoMore(s: Bytes, reported: Bytes, reports: Bytes)
    requires GoesOnWith(s, reported, [], reports)
    ensures Ends(s, reported, None, [], reports)
  {
  }

  lemma OneMore(s: Bytes, reported: Bytes, rest: Bytes, reports: Bytes, token: Option<Lexeme>, rest': Bytes,
                reports': Bytes)
    requires rest != [] && GoesOnWith(s, reported, rest, reports) && Acted(rest, token, rest', reports, reports')
    ensures |rest'| < |rest|
    ensures if token.Some? then Ends(s, reported, token, rest', reports') else GoesOnWith(s, reported, rest', reports')
  {
    hide MatchLength, MatchRule, Next;
    if token.None? {
      NextSkips(rest);
      assert reports' + Next(rest').reports == reports + (Report(rest) + Next(rest').reports);
    } else {
      NextTakes(rest);
    }
  }

  /** The tokens and reports so far, followed by those of rest, are those of the input. */
  predicate Progress(input: Bytes, rest: Bytes, tokens: seq<Lexeme>, reports: Bytes) {
    tokens + Lexemes(rest) == Lexemes(input) && reports + Reports(rest) == Reports(input)
  }

  lemma ProgressNext(input: Bytes, rest: Bytes, tokens: seq<Lexeme>, reports: Bytes)
    requires Progress(input, rest, tokens, reports)
    ensures var r := Next(rest);
            if r.token.Some? then Progress(input, r.rest, tokens + [r.token.value], reports + r.reports)
            else tokens == Lexemes(input) && reports + r.reports == Reports(input)
  {
    hide Next;
    var r := Next(rest);
    if r.token.Some? {
      assert tokens + [r.token.value] + Lexemes(r.rest) == tokens + ([r.token.value] + Lexemes(r.rest));
      assert reports + r.reports + Reports(r.rest) == reports + (r.reports + Reports(r.rest));
    }
  }

  /** Scanning a whole input gives the lexemes of its text, however the reads divide it and
      however small the buffer is to begin with. */
  method ScanAll(input: Bytes, sizes: seq<nat>, size: nat) returns (tokens: seq<Lexeme>, reports: Bytes)
    requires 0 < size
    ensures tokens == Lexemes(input) && reports == Reports(input)
  {
    hide Next, Lexemes, Reports, Progress;
    var scanner := new Scanner(input, sizes, size);
    tokens := [];
    var done := false;
    StartOfProgress(input);
    while !done
      invariant scanner.Idle() && fresh(scanner) && fresh(scanner.chBuf)
      invariant if done then tokens == Lexemes(input) && scanner.printed == Reports(input)
                else Progress(input, scanner.Pending(), tokens, scanner.printed)
      decreases if done then 0 else 1 + |scanner.Pending()|
    {
      ProgressNext(input, scanner.Pending(), tokens, scanner.printed);
      var token := scanner.Yylex();
      if token.Some? {
        tokens := tokens + [token.value];
      } else {
        done := true;
      }
    }
    reports := scanner.printed;
  }

  lemma StartOfProgress(input: Bytes)
    ensures Progress(input, input, [], [])
  {
  }
}
