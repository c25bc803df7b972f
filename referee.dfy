/*
 * The turn loop of referee.c: read the move of the player on turn from that
 * player's stream, log it, reject it when it is not valid, otherwise relay
 * it to the other player, apply it and hand the turn on, until a stream
 * runs dry, a move is rejected, or neither player can move.
 */
module Referee {
  import opened Rules
  import opened GameBoard
  import MoveFacts

  /** A move as a player writes it: a column letter and a row number. */
  datatype Token = Token(column: char, row: int)

  /** A token the referee forwarded, and the player it went to. */
  datatype Relay = Relay(recipient: int, token: Token)

  /** A "Move #number (by FIRST|SECOND player)" line of the tracking log. */
  datatype LogLine = MoveLine(number: int, mover: int, token: Token)

  /** Why the match ended: the player on turn sent nothing more, sent a move
      that is not valid, or neither player could move. */
  datatype Ending = Crashed | BadMove | Finished

  datatype MatchResult = MatchResult(ending: Ending, score: int, winner: Winner,
                                     relays: seq<Relay>, log: seq<LogLine>)

  /** The column index of a column letter: 'A' is 0. */
  function ColumnIndex(ch: char): (c: int)
    ensures 'A' <= ch <= 'H' <==> 0 <= c < SIZE
    ensures ch as int == 'A' as int + c
  {
    ch as int - 'A' as int
  }

  /** A grid and the player on turn in it. */
  datatype Position = Position(grid: Grid, player: int)

  ghost predicate Sound(q: Position)
  {
    WellFormed(q.grid) && IsPlayer(q.player)
  }

  /** The position after the player on turn plays t: Board_makeMove then
      Board_draw's turn change. A token off the board leaves the position
      as it is (the referee never applies one). */
  ghost function Advance(q: Position, t: Token): (q': Position)
    requires Sound(q)
    ensures Sound(q')
  {
    var r, c := t.row, ColumnIndex(t.column);
    if OnBoard(r, c) then
      var h := AfterMove(q.grid, q.player, r, c);
      Position(h, NextPlayer(h, q.player))
    else q
  }

  /** The position after the relayed moves, from Board_init's. */
  ghost function Replay(rs: seq<Relay>): (q: Position)
    ensures Sound(q)
  {
    if rs == [] then Position(InitialGrid(), FIRST)
    else Advance(Replay(rs[..|rs| - 1]), rs[|rs| - 1].token)
  }

  /** Each relayed move was valid for the player on turn, went to the other
      player, and was made while the match was not over. */
  ghost predicate LegalPlay(rs: seq<Relay>)
  {
    rs == [] ||
    var prior, last := rs[..|rs| - 1], rs[|rs| - 1];
    var q := Replay(prior);
    && LegalPlay(prior)
    && !GameOver(q.grid)
    && last.recipient == Other(q.player)
    && IsValidMove(q.grid, q.player, last.token.row, ColumnIndex(last.token.column))
  }

  /** The tokens relayed to player q, in order: the moves its opponent made. */
  function TokensTo(rs: seq<Relay>, q: int): (ts: seq<Token>)
    ensures |ts| <= |rs|
    ensures forall i :: 0 <= i < |ts| ==> exists j :: 0 <= j < |rs| && rs[j] == Relay(q, ts[i])
    ensures forall j :: 0 <= j < |rs| && rs[j].recipient == q ==> rs[j].token in ts
  {
    if rs == [] then []
    else TokensTo(rs[..|rs| - 1], q) + (if rs[|rs| - 1].recipient == q then [rs[|rs| - 1].token] else [])
  }

  /** The stream player q writes its moves to. */
  function StreamOf(q: int, stream1: seq<Token>, stream2: seq<Token>): seq<Token>
  {
    if q == FIRST then stream1 else stream2
  }

  /** The log lines writeMove writes for the relayed moves, numbered from 0. */
  function MoveLines(rs: seq<Relay>): (log: seq<LogLine>)
    ensures |log| == |rs|
    ensures forall i :: 0 <= i < |rs| ==>
              log[i] == MoveLine(i, Other(rs[i].recipient), rs[i].token)
  {
    if rs == [] then []
    else MoveLines(rs[..|rs| - 1]) + [MoveLine(|rs| - 1, Other(rs[|rs| - 1].recipient), rs[|rs| - 1].token)]
  }

  /** Appending a relay to a legal play: the new position, tokens and log lines. */
  lemma ExtendPlay(rs: seq<Relay>, relay: Relay)
    requires LegalPlay(rs)
    requires !GameOver(Replay(rs).grid) && relay.recipient == Other(Replay(rs).player)
    requires IsValidMove(Replay(rs).grid, Replay(rs).player, relay.token.row, ColumnIndex(relay.token.column))
    ensures LegalPlay(rs + [relay])
    ensures Replay(rs + [relay]) == Advance(Replay(rs), relay.token)
    ensures TokensTo(rs + [relay], FIRST) == TokensTo(rs, FIRST) + (if relay.recipient == FIRST then [relay.token] else [])
    ensures TokensTo(rs + [relay], SECOND) == TokensTo(rs, SECOND) + (if relay.recipient == SECOND then [relay.token] else [])
    ensures MoveLines(rs + [relay]) == MoveLines(rs) + [MoveLine(|rs|, Other(relay.recipient), relay.token)]
  {
    assert (rs + [relay])[..|rs|] == rs;
  }

  /** Each legal move fills one empty cell: after rs, 60 - |rs| cells are empty. */
  lemma {:induction false} EmptyCount(rs: seq<Relay>)
    requires LegalPlay(rs)
    ensures |CellsOf(Replay(rs).grid, EMPTY)| == SIZE * SIZE - 4 - |rs|
  {
    if rs == [] {
      MoveFacts.InitialCounts();
    } else {
      var prior, t := rs[..|rs| - 1], rs[|rs| - 1].token;
      var q := Replay(prior);
      EmptyCount(prior);
      MoveFacts.AfterMoveCounts(q.grid, q.player, t.row, ColumnIndex(t.column));
    }
  }

  /** A match relays at most 60 moves: the referee's loop always ends. */
  lemma MatchLength(rs: seq<Relay>)
    requires LegalPlay(rs)
    ensures |rs| <= SIZE * SIZE - 4
  {
    EmptyCount(rs);
  }

  /** The read positions in the two streams, the move count and the log
      agree with the moves relayed so far. */
  ghost predicate Bookkept(stream1: seq<Token>, stream2: seq<Token>, tracking: bool,
                           rs: seq<Relay>, i1: int, i2: int, count: int, log: seq<LogLine>)
  {
    && count == |rs|
    && i1 == |TokensTo(rs, SECOND)| <= |stream1| && stream1[..i1] == TokensTo(rs, SECOND)
    && i2 == |TokensTo(rs, FIRST)| <= |stream2| && stream2[..i2] == TokensTo(rs, FIRST)
    && log == if tracking then MoveLines(rs) else []
  }

  /** Relaying the next token of the mover's stream keeps the books. */
  lemma BookkeepStep(stream1: seq<Token>, stream2: seq<Token>, tracking: bool,
                     rs: seq<Relay>, i1: int, i2: int, count: int, log: seq<LogLine>, mover: int)
    requires Bookkept(stream1, stream2, tracking, rs, i1, i2, count, log)
    requires IsPlayer(mover)
    requires mover == FIRST ==> i1 < |stream1|
    requires mover == SECOND ==> i2 < |stream2|
    ensures var t := if mover == FIRST then stream1[i1] else stream2[i2];
            Bookkept(stream1, stream2, tracking, rs + [Relay(Other(mover), t)],
                     if mover == FIRST then i1 + 1 else i1, if mover == SECOND then i2 + 1 else i2,
                     count + 1, if tracking then log + [MoveLine(count, mover, t)] else log)
  {
    var t := if mover == FIRST then stream1[i1] else stream2[i2];
    var rs' := rs + [Relay(Other(mover), t)];
    assert rs'[..|rs|] == rs;
    if mover == FIRST {
      assert stream1[..i1 + 1] == stream1[..i1] + [t];
    } else {
      assert stream2[..i2 + 1] == stream2[..i2] + [t];
    }
  }

  /** What the referee's loop promises about a finished run on the streams
      stream1 (FIRST's moves) and stream2 (SECOND's):
      - every relayed move was valid when made, was sent on to the other
        player, and each player's relayed moves are a prefix of its stream;
      - the match ends Finished exactly when neither player can move in the
        final position, and then the score is FIRST's tiles minus SECOND's;
      - otherwise the player on turn forfeits: its stream is exhausted
        (Crashed) or its next token is not a valid move (BadMove);
      - the winner follows the sign of the score;
      - with tracking, the log numbers every move read, from 0, with its mover. */
  ghost predicate Refereed(stream1: seq<Token>, stream2: seq<Token>, tracking: bool, result: MatchResult)
  {
    var rs := result.relays;
    var q := Replay(rs);
    var stream := StreamOf(q.player, stream1, stream2);
    var sent := |TokensTo(rs, Other(q.player))|;
    && LegalPlay(rs)
    && TokensTo(rs, SECOND) <= stream1
    && TokensTo(rs, FIRST) <= stream2
    && (result.ending == Finished <==> GameOver(q.grid))
    && (result.ending == Finished ==> result.score == TileDiff(q.grid))
    && (result.ending != Finished ==> result.score == Forfeit(q.player))
    && result.winner == WinnerOf(result.score)
    && (result.ending == Crashed ==> sent == |stream|)
    && (result.ending == BadMove ==>
          sent < |stream| && !IsValidMove(q.grid, q.player, stream[sent].row, ColumnIndex(stream[sent].column)))
    && (!tracking ==> result.log == [])
    && (tracking && result.ending != BadMove ==> result.log == MoveLines(rs))
    && (tracking && result.ending == BadMove ==>
          sent < |stream| && result.log == MoveLines(rs) + [MoveLine(|rs|, q.player, stream[sent])])
  }

  /** The loop state: the moves relayed so far are legal and lead to the
      grid g with p on turn, and the match is not over there. */
  ghost predicate InPlay(rs: seq<Relay>, g: Grid, p: int)
  {
    LegalPlay(rs) && Replay(rs) == Position(g, p) && !GameOver(g)
  }

  /** Leaving the loop because the player on turn has no more input. */
  lemma CrashedExit(stream1: seq<Token>, stream2: seq<Token>, tracking: bool, rs: seq<Relay>,
                    i1: int, i2: int, count: int, log: seq<LogLine>, g: Grid, p: int, score: int, winner: Winner)
    requires InPlay(rs, g, p) && Bookkept(stream1, stream2, tracking, rs, i1, i2, count, log)
    requires p == FIRST ==> i1 == |stream1|
    requires p == SECOND ==> i2 == |stream2|
    requires score == Forfeit(p) && winner == WinnerOf(score)
    ensures Refereed(stream1, stream2, tracking, MatchResult(Crashed, score, winner, rs, log))
  {
  }

  /** Leaving the loop because the token read is not a valid move. */
  lemma BadMoveExit(stream1: seq<Token>, stream2: seq<Token>, tracking: bool, rs: seq<Relay>,
                    i1: int, i2: int, count: int, log: seq<LogLine>, g: Grid, p: int, score: int, winner: Winner)
    requires InPlay(rs, g, p) && Bookkept(stream1, stream2, tracking, rs, i1, i2, count, log)
    requires p == FIRST ==> i1 < |stream1|
    requires p == SECOND ==> i2 < |stream2|
    requires var t := if p == FIRST then stream1[i1] else stream2[i2];
             !IsValidMove(g, p, t.row, ColumnIndex(t.column))
    requires score == Forfeit(p) && winner == WinnerOf(score)
    ensures var t := if p == FIRST then stream1[i1] else stream2[i2];
            Refereed(stream1, stream2, tracking,
                     MatchResult(BadMove, score, winner, rs, if tracking then log + [MoveLine(count, p, t)] else log))
  {
  }

  /** Leaving the loop because neither player can move after the last move. */
  lemma FinishedExit(stream1: seq<Token>, stream2: seq<Token>, tracking: bool, rs: seq<Relay>,
                     i1: int, i2: int, count: int, log: seq<LogLine>, g: Grid, p: int, score: int, winner: Winner)
    requires LegalPlay(rs) && Replay(rs) == Position(g, p) && GameOver(g)
    requires Bookkept(stream1, stream2, tracking, rs, i1, i2, count, log)
    requires score == TileDiff(g) && winner == WinnerOf(score)
    ensures Refereed(stream1, stream2, tracking, MatchResult(Finished, score, winner, rs, log))
  {
  }

  /** One pass of the loop that relays, applies and hands the turn on. */
  lemma PlayStep(rs: seq<Relay>, g: Grid, p: int, t: Token, g': Grid, p': int)
    requires InPlay(rs, g, p)
    requires IsValidMove(g, p, t.row, ColumnIndex(t.column))
    requires g' == AfterMove(g, p, t.row, ColumnIndex(t.column)) && p' == NextPlayer(g', p)
    ensures LegalPlay(rs + [Relay(Other(p), t)]) && Replay(rs + [Relay(Other(p), t)]) == Position(g', p')
  {
    ExtendPlay(rs, Relay(Other(p), t));
  }

  /** How a pass of the referee's loop ends: on to the next turn, or with
      the match decided. */
  datatype Outcome = Continue | Over(result: MatchResult)

  /** The rest of a pass once the move has been judged valid and relayed:
      Board_makeMove, the board drawing that hands the turn on, the move
      count, and the end of the match when neither player can move. rs0 are
      the relays before this move and relays those after it. */
  method Proceed(board: Board, stream1: seq<Token>, stream2: seq<Token>, tracking: bool, ghost rs0: seq<Relay>,
                 relays: seq<Relay>, i1: int, i2: int, count: int, log: seq<LogLine>, token: Token, column: int)
    returns (outcome: Outcome, count': int)
    requires board.Valid() && InPlay(rs0, board.grid, board.player)
    requires column == ColumnIndex(token.column) && IsValidMove(board.grid, board.player, token.row, column)
    requires relays == rs0 + [Relay(Other(board.player), token)]
    requires Bookkept(stream1, stream2, tracking, relays, i1, i2, count + 1, log)
    modifies board`grid, board`player, board.cells
    ensures board.Valid() && count' == count + 1
    ensures outcome.Continue? ==> InPlay(relays, board.grid, board.player)
    ensures outcome.Continue? <==> !GameOver(board.grid)
    ensures outcome.Over? ==> outcome.result.ending == Finished && outcome.result.relays == relays
    ensures outcome.Over? ==> Refereed(stream1, stream2, tracking, outcome.result)
  {
    ghost var g, mover := board.grid, board.player;
    var ok := board.MakeMove(token.row, column);
    var prevPlay := board.Draw();
    count' := count + 1;
    PlayStep(rs0, g, mover, token, board.grid, board.player);
    if prevPlay == 0 {
      var score, winner := board.EndGame();
      FinishedExit(stream1, stream2, tracking, relays, i1, i2, count', log, board.grid, board.player, score, winner);
      outcome := Over(MatchResult(Finished, score, winner, relays, log));
    } else {
      outcome := Continue;
    }
  }

  /** One pass of the loop of referee.c's main: read the token of the player
      on turn, log it, judge it, relay it to the other player, make the move
      and hand the turn on. relays', i1', i2', count' and log' are the loop's
      variables afterwards. */
  method Turn(board: Board, stream1: seq<Token>, stream2: seq<Token>, tracking: bool,
              relays: seq<Relay>, i1: int, i2: int, count: int, log: seq<LogLine>)
    returns (outcome: Outcome, relays': seq<Relay>, i1': int, i2': int, count': int, log': seq<LogLine>)
    requires board.Valid() && InPlay(relays, board.grid, board.player)
    requires Bookkept(stream1, stream2, tracking, relays, i1, i2, count, log)
    modifies board`grid, board`player, board.cells
    ensures board.Valid()
    ensures outcome.Continue? ==> InPlay(relays', board.grid, board.player)
    ensures outcome.Continue? ==> Bookkept(stream1, stream2, tracking, relays', i1', i2', count', log')
    ensures outcome.Continue? ==> |stream1| - i1' + |stream2| - i2' < |stream1| - i1 + |stream2| - i2
    ensures outcome.Continue? ==> i1' + i2' == i1 + i2 + 1 && |relays'| == |relays| + 1 && relays'[..|relays|] == relays
    ensures outcome.Over? ==> Refereed(stream1, stream2, tracking, outcome.result)
  {
    ghost var g, mover := board.grid, board.player;
    relays', i1', i2', count', log' := relays, i1, i2, count, log;
    var score: int;
    var winner: Winner;
    var player := board.player;
    var eof := if player == FIRST then i1 == |stream1| else i2 == |stream2|;
    if eof {
      score, winner := board.EndGameBad();
      CrashedExit(stream1, stream2, tracking, relays, i1, i2, count, log, g, mover, score, winner);
      outcome := Over(MatchResult(Crashed, score, winner, relays, log));
    } else {
      var token := if player == FIRST then stream1[i1] else stream2[i2];
      var column := ColumnIndex(token.column);
      BookkeepStep(stream1, stream2, tracking, relays, i1, i2, count, log, mover);
      if tracking {
        log' := log + [MoveLine(count, player, token)];
      }
      var valid := board.MoveIsValid(token.row, column);
      if !valid {
        score, winner := board.EndGameBad();
        BadMoveExit(stream1, stream2, tracking, relays, i1, i2, count, log, g, mover, score, winner);
        outcome := Over(MatchResult(BadMove, score, winner, relays, log'));
      } else {
        var relay := Relay(if player == FIRST then SECOND else FIRST, token);
        relays' := relays + [relay];
        if player == FIRST {
          i1' := i1 + 1;
        } else {
          i2' := i2 + 1;
        }
        outcome, count' := Proceed(board, stream1, stream2, tracking, relays, relays', i1', i2', count, log', token, column);
      }
    }
  }

  /** The loop of referee.c's main, after the children are started: stream1
      and stream2 are what the FIRST and SECOND players write, the end of a
      stream is end of file, and tracking says whether writeMove logs. */
  method PlayMatch(stream1: seq<Token>, stream2: seq<Token>, tracking: bool) returns (result: MatchResult)
    ensures Refereed(stream1, stream2, tracking, result)
  {
    var board := new Board();
    MoveFacts.InitialHasMove();
    var count := 0;
    var i1, i2 := 0, 0;
    var relays: seq<Relay> := [];
    var log: seq<LogLine> := [];
    while true
      invariant board.Valid() && fresh(board) && fresh(board.cells)
      invariant InPlay(relays, board.grid, board.player)
      invariant Bookkept(stream1, stream2, tracking, relays, i1, i2, count, log)
      decreases |stream1| - i1 + |stream2| - i2
    {
      var outcome;
      outcome, relays, i1, i2, count, log := Turn(board, stream1, stream2, tracking, relays, i1, i2, count, log);
      if outcome.Over? {
        return outcome.result;
      }
    }
  }
}
