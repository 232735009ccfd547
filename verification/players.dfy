/** The player roster: a player table kept with unique jersey numbers per
    team, the team rows players refer to, and an append-only transfer log. */
module Players {
  import opened AppErrors
  import opened Models

  datatype Player = Player(id: nat, teamId: nat, name: string, height: int, weight: int, position: string, jersey: int)

  /** One line of the transfer history. */
  datatype Transfer = Transfer(playerId: nat, oldTeamId: nat, newTeamId: nat, jersey: int)

  /** A reference to a player row, as the repository hands one back: Nil or a row. */
  datatype Ptr = Nil | Ref(row: Player)

  /** The zero-valued row the jersey lookup points at when nothing matches. */
  const EmptyPlayer := Player(0, 0, "", 0, 0, "", 0)

  /** The four playing positions. */
  predicate ValidPosition(pos: string) {
    pos in {"PENYERANG", "GELANDANG", "BERTAHAN", "PENJAGA_GAWANG"}
  }

  /** Some player of the team wears that number. */
  predicate JerseyTaken(players: map<nat, Player>, teamId: nat, jersey: int) {
    exists id | id in players :: players[id].teamId == teamId && players[id].jersey == jersey
  }

  /** Some player other than `self` wears that number in the team. */
  predicate JerseyTakenByOther(players: map<nat, Player>, teamId: nat, jersey: int, self: nat) {
    exists id | id in players :: id != self && players[id].teamId == teamId && players[id].jersey == jersey
  }

  /** No two players of one team share a jersey number. */
  predicate JerseysUnique(players: map<nat, Player>) {
    forall a, b | a in players && b in players && a != b && players[a].teamId == players[b].teamId ::
      players[a].jersey != players[b].jersey
  }

  /** The outcome of a transfer as the service decides it: after the player
      and destination checks the jersey guard tests the looked-up reference,
      which is never nil, so every transfer that gets that far is refused. */
  function TransferOutcomeAsWritten(players: map<nat, Player>, teams: map<nat, Team>, playerId: nat, newTeamId: nat, holder: Ptr): Outcome {
    if playerId !in players then Fail(NewNotFoundError("pemain tidak ditemukan"))
    else if newTeamId !in teams then Fail(NewNotFoundError("team tujuan tidak ditemukan"))
    else if teams[newTeamId].deleted then Fail(NewValidationError("tidak bisa mentransfer pemain ke team yang sudah dihapus"))
    else if holder != Nil then Fail(NewConflictError("nomor punggung sudah dipakai di tim baru"))
    else Done
  }

  /** The outcome the guard evidently means: refuse only a number someone in
      the destination team already wears. */
  function TransferOutcome(players: map<nat, Player>, teams: map<nat, Team>, playerId: nat, newTeamId: nat, newJersey: int): Outcome {
    if playerId !in players then Fail(NewNotFoundError("pemain tidak ditemukan"))
    else if newTeamId !in teams then Fail(NewNotFoundError("team tujuan tidak ditemukan"))
    else if teams[newTeamId].deleted then Fail(NewValidationError("tidak bisa mentransfer pemain ke team yang sudah dihapus"))
    else if JerseyTaken(players, newTeamId, newJersey) then Fail(NewConflictError("nomor punggung sudah dipakai di tim baru"))
    else Done
  }

  /** A transfer to a live team with a free number: the guard as written
      refuses it, the intended guard lets it through. */
  lemma TransferGuardRefusesFreeNumber()
    ensures var players := map[1 := Player(1, 1, "Andi", 175, 70, "PENYERANG", 10)];
            var teams := map[1 := Team(1, "Garuda", false), 2 := Team(2, "Rajawali", false)];
            && !JerseyTaken(players, 2, 7)
            && TransferOutcomeAsWritten(players, teams, 1, 2, Ref(EmptyPlayer)) == Fail(NewConflictError("nomor punggung sudah dipakai di tim baru"))
            && TransferOutcome(players, teams, 1, 2, 7) == Done
  {
    var players := map[1 := Player(1, 1, "Andi", 175, 70, "PENYERANG", 10)];
    assert forall id | id in players :: id == 1;
  }

  /** Whatever the lookup finds, the guard as written refuses every transfer
      to an existing live team. */
  lemma AsWrittenRefusesEveryTransfer(players: map<nat, Player>, teams: map<nat, Team>, playerId: nat, newTeamId: nat, row: Player)
    requires playerId in players && newTeamId in teams && !teams[newTeamId].deleted
    ensures TransferOutcomeAsWritten(players, teams, playerId, newTeamId, Ref(row)).Fail?
    ensures TransferOutcomeAsWritten(players, teams, playerId, newTeamId, Ref(row)).error.code == 409
  {
  }

  class PlayerService {
    /** The team rows the team lookup returns, keyed by id; `deleted` is the soft-delete mark. */
    var teams: map<nat, Team>
    /** The live player rows, keyed by id. */
    var players: map<nat, Player>
    /** The transfer history, oldest first. */
    var transfers: seq<Transfer>
    /** The next id the store assigns. */
    var nextId: nat

    ghost predicate Valid()
      reads this
    {
      && 0 < nextId
      && (forall id | id in players :: players[id].id == id && 0 < id < nextId)
      && JerseysUnique(players)
    }

    constructor (teams: map<nat, Team>)
      ensures Valid()
      ensures this.teams == teams && players == map[] && transfers == [] && nextId == 1
    {
      this.teams := teams;
      players := map[];
      transfers := [];
      nextId := 1;
    }

    /** The jersey lookup: a reference to the wearer of the number in the team,
      and whether there is one. When nobody wears it the reference is still not Nil,
      at a zero-valued row. */
    method FindJerseyNumber(teamId: nat, jersey: int) returns (holder: Ptr, found: bool)
      requires Valid()
      ensures holder != Nil
      ensures found <==> JerseyTaken(players, teamId, jersey)
      ensures found ==> holder.row.id in players && players[holder.row.id] == holder.row
                        && holder.row.teamId == teamId && holder.row.jersey == jersey
      ensures found ==> forall id | id in players && players[id].teamId == teamId && players[id].jersey == jersey :: id == holder.row.id
      ensures !found ==> holder == Ref(EmptyPlayer)
    {
      if exists id | id in players :: players[id].teamId == teamId && players[id].jersey == jersey {
        var id :| id in players && players[id].teamId == teamId && players[id].jersey == jersey;
        holder, found := Ref(players[id]), true;
      } else {
        holder, found := Ref(EmptyPlayer), false;
      }
    }

    /** Registers a player. Checked in order: a name, a valid position, an
      existing team, a team that is not deleted, a free jersey number. The
      new row gets the next id and is returned as stored. */
    method Create(teamId: nat, name: string, height: int, weight: int, position: string, jersey: int) returns (r: Result<Player>)
      requires Valid()
      modifies this
      ensures Valid() && teams == old(teams) && transfers == old(transfers)
      ensures name == [] ==> r == Err(NewValidationError("nama pemain wajib diisi"))
      ensures name != [] && !ValidPosition(position) ==> r == Err(NewValidationError("posisi pemain tidak valid"))
      ensures name != [] && ValidPosition(position) && teamId !in teams ==>
                r == Err(NewNotFoundError("team tidak ditemukan atau sudah dihapus"))
      ensures name != [] && ValidPosition(position) && teamId in teams && teams[teamId].deleted ==>
                r == Err(NewValidationError("tidak bisa menambahkan pemain ke team yang sudah dihapus"))
      ensures name != [] && ValidPosition(position) && teamId in teams && !teams[teamId].deleted
              && JerseyTaken(old(players), teamId, jersey) ==>
                r == Err(NewConflictError("nomor punggung sudah digunakan dalam tim ini"))
      ensures r.Ok? <==> name != [] && ValidPosition(position) && teamId in teams && !teams[teamId].deleted
                         && !JerseyTaken(old(players), teamId, jersey)
      ensures r.Err? ==> players == old(players) && nextId == old(nextId)
      ensures r.Ok? ==> r.value == Player(old(nextId), teamId, name, height, weight, position, jersey)
                        && old(nextId) !in old(players)
                        && players == old(players)[old(nextId) := r.value] && nextId == old(nextId) + 1
    {
      if name == [] {
        return Err(NewValidationError("nama pemain wajib diisi"));
      }
      if !ValidPosition(position) {
        return Err(NewValidationError("posisi pemain tidak valid"));
      }
      if teamId !in teams {
        return Err(NewNotFoundError("team tidak ditemukan atau sudah dihapus"));
      }
      if teams[teamId].deleted {
        return Err(NewValidationError("tidak bisa menambahkan pemain ke team yang sudah dihapus"));
      }
      var _, found := FindJerseyNumber(teamId, jersey);
      if found {
        return Err(NewConflictError("nomor punggung sudah digunakan dalam tim ini"));
      }
      var p := Player(nextId, teamId, name, height, weight, position, jersey);
      players := players[nextId := p];
      nextId := nextId + 1;
      r := Ok(p);
    }

    /** Saves an edited player row. The position must be valid and the number
      must not be worn by another player of the row's team; the player may
      keep their own number. Saving inserts a row with id 0 under a fresh id
      and otherwise writes the row under its id. */
    method Update(p: Player) returns (r: Outcome)
      requires Valid()
      modifies this
      ensures Valid() && teams == old(teams) && transfers == old(transfers)
      ensures !ValidPosition(p.position) ==> r == Fail(NewValidationError("posisi pemain tidak valid"))
      ensures ValidPosition(p.position) && JerseyTakenByOther(old(players), p.teamId, p.jersey, p.id) ==>
                r == Fail(NewConflictError("nomor punggung sudah digunakan pemain lain"))
      ensures r.Done? <==> ValidPosition(p.position) && !JerseyTakenByOther(old(players), p.teamId, p.jersey, p.id)
      ensures r.Fail? ==> players == old(players) && nextId == old(nextId)
      ensures r.Done? && p.id == 0 ==>
                players == old(players)[old(nextId) := p.(id := old(nextId))] && nextId == old(nextId) + 1
      ensures r.Done? && p.id != 0 ==>
                players == old(players)[p.id := p] && nextId == (if p.id < old(nextId) then old(nextId) else p.id + 1)
    {
      if !ValidPosition(p.position) {
        return Fail(NewValidationError("posisi pemain tidak valid"));
      }
      var exist, found := FindJerseyNumber(p.teamId, p.jersey);
      if found && exist.row.id != p.id {
        return Fail(NewConflictError("nomor punggung sudah digunakan pemain lain"));
      }
      if p.id == 0 {
        players := players[nextId := p.(id := nextId)];
        nextId := nextId + 1;
      } else {
        players := players[p.id := p];
        if nextId <= p.id {
          nextId := p.id + 1;
        }
      }
      r := Done;
    }

    /** Removes a player; an unknown id is NotFound. */
    method Delete(id: nat) returns (r: Outcome)
      requires Valid()
      modifies this
      ensures Valid() && teams == old(teams) && transfers == old(transfers) && nextId == old(nextId)
      ensures id !in old(players) ==> r == Fail(NewNotFoundError("pemain tidak ditemukan")) && players == old(players)
      ensures id in old(players) ==> r == Done && players == old(players) - {id}
    {
      if id !in players {
        return Fail(NewNotFoundError("pemain tidak ditemukan"));
      }
      players := players - {id};
      r := Done;
    }

    /** The transfer as the service performs it. The jersey guard tests the
      reference the lookup returns rather than whether a row was found, and the
      reference is never Nil, so once the player and the destination team pass
      their checks the transfer is refused and nothing is written. */
    method TransferPlayer(playerId: nat, newTeamId: nat, newJersey: int) returns (r: Outcome)
      requires Valid()
      modifies this
      ensures Valid() && teams == old(teams)
      ensures r.Fail?
      ensures players == old(players) && transfers == old(transfers) && nextId == old(nextId)
      ensures r == TransferOutcomeAsWritten(old(players), teams, playerId, newTeamId, Ref(EmptyPlayer))
      ensures playerId in players && newTeamId in teams && !teams[newTeamId].deleted ==>
                r == Fail(NewConflictError("nomor punggung sudah dipakai di tim baru"))
    {
      if playerId !in players {
        return Fail(NewNotFoundError("pemain tidak ditemukan"));
      }
      if newTeamId !in teams {
        return Fail(NewNotFoundError("team tujuan tidak ditemukan"));
      }
      if teams[newTeamId].deleted {
        return Fail(NewValidationError("tidak bisa mentransfer pemain ke team yang sudah dihapus"));
      }
      var exist, _ := FindJerseyNumber(newTeamId, newJersey);
      if exist != Nil {
        return Fail(NewConflictError("nomor punggung sudah dipakai di tim baru"));
      }
      // The lookup never returns Nil: the writes that follow in the service are unreachable.
      assert false;
    }

    /** The transfer with the guard it evidently means: refused only when
      someone in the destination team wears the number. Otherwise the history
      line is written first, holding the player's old team, and then the
      player's team and number are updated; a failing update (`updateFails`)
      is reported as Internal and leaves the history line in place. */
    method TransferPlayerIntended(playerId: nat, newTeamId: nat, newJersey: int, updateFails: bool) returns (r: Outcome)
      requires Valid()
      modifies this
      ensures Valid() && teams == old(teams) && nextId == old(nextId)
      ensures r.Fail? && r.error.code != 500 <==> TransferOutcome(old(players), teams, playerId, newTeamId, newJersey).Fail?
      ensures TransferOutcome(old(players), teams, playerId, newTeamId, newJersey).Fail? ==>
                r == TransferOutcome(old(players), teams, playerId, newTeamId, newJersey)
                && players == old(players) && transfers == old(transfers)
      ensures TransferOutcome(old(players), teams, playerId, newTeamId, newJersey).Done? ==>
                var p := old(players)[playerId];
                && transfers == old(transfers) + [Transfer(playerId, p.teamId, newTeamId, newJersey)]
                && (updateFails ==> r == Fail(NewInternalError("gagal memperbarui data pemain")) && players == old(players))
                && (!updateFails ==> r == Done && players == old(players)[playerId := p.(teamId := newTeamId, jersey := newJersey)])
    {
      if playerId !in players {
        return Fail(NewNotFoundError("pemain tidak ditemukan"));
      }
      var player := players[playerId];
      if newTeamId !in teams {
        return Fail(NewNotFoundError("team tujuan tidak ditemukan"));
      }
      if teams[newTeamId].deleted {
        return Fail(NewValidationError("tidak bisa mentransfer pemain ke team yang sudah dihapus"));
      }
      var _, found := FindJerseyNumber(newTeamId, newJersey);
      if found {
        return Fail(NewConflictError("nomor punggung sudah dipakai di tim baru"));
      }
      transfers := transfers + [Transfer(player.id, player.teamId, newTeamId, newJersey)];
      if updateFails {
        return Fail(NewInternalError("gagal memperbarui data pemain"));
      }
      players := players[playerId := player.(teamId := newTeamId, jersey := newJersey)];
      r := Done;
    }
  }
}
