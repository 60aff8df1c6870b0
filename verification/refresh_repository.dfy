/** `RefreshRepository` (src/repository/refresh.repository.ts): the refresh
    token table as a sequence of rows in insertion order. Nothing at this
    layer keeps tokens unique, so the same token may sit in several rows. */
module RefreshRepository {
  import opened Wrappers

  datatype RefreshRow = RefreshRow(token: string, userId: nat)

  type RefreshStore = seq<RefreshRow>

  predicate HasToken(rows: RefreshStore, token: string) {
    exists row :: row in rows && row.token == token
  }

  /** Number of rows carrying `token`. */
  function CountToken(rows: RefreshStore, token: string): (n: nat)
    ensures n == 0 <==> !HasToken(rows, token)
    ensures n <= |rows|
  {
    if |rows| == 0 then 0
    else
      assert forall row :: row in rows <==> row == rows[0] || row in rows[1..];
      (if rows[0].token == token then 1 else 0) + CountToken(rows[1..], token)
  }

  /** `saveRefreshToken(token, userId)`: creates one row and returns it.
      The old rows stay, in order, in front of the new one. */
  function SaveRefreshToken(rows: RefreshStore, token: string, userId: nat): (r: (RefreshRow, RefreshStore))
    ensures r.0 == RefreshRow(token, userId)
    ensures |r.1| == |rows| + 1 && r.1[..|rows|] == rows && r.1[|rows|] == r.0
    ensures multiset(r.1) == multiset(rows) + multiset{r.0}
    ensures CountToken(r.1, token) == CountToken(rows, token) + 1
  {
    var row := RefreshRow(token, userId);
    CountAppend(rows, row, token);
    (row, rows + [row])
  }

  lemma {:induction false} CountAppend(rows: RefreshStore, row: RefreshRow, token: string)
    ensures CountToken(rows + [row], token) == CountToken(rows, token) + (if row.token == token then 1 else 0)
  {
    if |rows| > 0 {
      CountAppend(rows[1..], row, token);
      assert (rows + [row])[1..] == rows[1..] + [row];
    }
  }

  /** `getRefreshDataByToken(token)`: a row with that token (the earliest
      stored one), or none when no row has it. */
  function GetRefreshDataByToken(rows: RefreshStore, token: string): (r: Option<RefreshRow>)
    ensures r.None? <==> !HasToken(rows, token)
    ensures r.Some? ==> r.value in rows && r.value.token == token
  {
    if |rows| == 0 then None
    else if rows[0].token == token then Some(rows[0])
    else
      assert forall row :: row in rows <==> row == rows[0] || row in rows[1..];
      GetRefreshDataByToken(rows[1..], token)
  }

  /** The row found is the earliest stored row carrying the token. The
      query names no `orderBy`; reading the rows in insertion order is this
      model's assumption about the database. */
  lemma {:induction false} FindReturnsFirst(rows: RefreshStore, token: string, i: nat)
    requires i < |rows| && rows[i].token == token
    requires forall j :: 0 <= j < i ==> rows[j].token != token
    ensures GetRefreshDataByToken(rows, token) == Some(rows[i])
  {
    if i > 0 {
      assert rows[0].token != token;
      assert forall j :: 0 <= j < i - 1 ==> rows[1..][j] == rows[j + 1];
      FindReturnsFirst(rows[1..], token, i - 1);
    }
  }

  /** The rows whose token differs from `token`, in their original order. */
  function Remaining(rows: RefreshStore, token: string): (r: RefreshStore)
    ensures forall row :: row in r <==> row in rows && row.token != token
    ensures |r| + CountToken(rows, token) == |rows|
  {
    if |rows| == 0 then []
    else
      var rest := Remaining(rows[1..], token);
      assert forall row :: row in rows <==> row == rows[0] || row in rows[1..];
      if rows[0].token == token then rest else [rows[0]] + rest
  }

  /** Every row with another token survives the delete as often as it was
      stored; rows with the token are all gone. */
  lemma {:induction false} RemainingMultiset(rows: RefreshStore, token: string)
    ensures forall row: RefreshRow :: row.token != token ==> multiset(Remaining(rows, token))[row] == multiset(rows)[row]
    ensures forall row: RefreshRow :: row.token == token ==> multiset(Remaining(rows, token))[row] == 0
  {
    if |rows| > 0 {
      RemainingMultiset(rows[1..], token);
      assert rows == [rows[0]] + rows[1..];
      assert multiset(rows) == multiset{rows[0]} + multiset(rows[1..]);
      if rows[0].token != token {
        assert Remaining(rows, token) == [rows[0]] + Remaining(rows[1..], token);
        assert multiset(Remaining(rows, token)) == multiset{rows[0]} + multiset(Remaining(rows[1..], token));
      }
    }
  }

  /** `deleteMany({where: {token}})`: removes every row with the token and
      reports how many went. */
  function DeleteMany(rows: RefreshStore, token: string): (r: (nat, RefreshStore))
    ensures r.0 == CountToken(rows, token)
    ensures r.0 == |rows| - |r.1|
    ensures !HasToken(r.1, token)
    ensures forall row: RefreshRow :: row.token != token ==> multiset(r.1)[row] == multiset(rows)[row]
  {
    var rest := Remaining(rows, token);
    RemainingMultiset(rows, token);
    (|rows| - |rest|, rest)
  }

  /** `deleteRefreshToken(token)`: `count > 0` of the delete. It answers
      true exactly when some row carried the token. */
  function DeleteRefreshToken(rows: RefreshStore, token: string): (r: (bool, RefreshStore))
    ensures r.0 <==> HasToken(rows, token)
    ensures forall row :: row in r.1 <==> row in rows && row.token != token
    ensures forall row: RefreshRow :: row.token != token ==> multiset(r.1)[row] == multiset(rows)[row]
    ensures !HasToken(r.1, token)
  {
    var (count, rest) := DeleteMany(rows, token);
    (count > 0, rest)
  }

  /** Without the token, a delete removes nothing. */
  lemma {:induction false} RemainingWithoutToken(rows: RefreshStore, token: string)
    requires !HasToken(rows, token)
    ensures Remaining(rows, token) == rows
  {
    if |rows| > 0 {
      assert rows[0] in rows;
      assert !HasToken(rows[1..], token) by {
        forall row | row in rows[1..] ensures row.token != token {
          assert row in rows;
        }
      }
      RemainingWithoutToken(rows[1..], token);
      assert Remaining(rows, token) == [rows[0]] + rows[1..];
      assert rows == [rows[0]] + rows[1..];
    }
  }

  /** Deleting the same token twice in a row: the second call answers
      false and changes nothing. */
  lemma DeleteTwice(rows: RefreshStore, token: string)
    ensures var (_, once) := DeleteRefreshToken(rows, token);
            var (removed, twice) := DeleteRefreshToken(once, token);
            !removed && twice == once
  {
    var (_, once) := DeleteRefreshToken(rows, token);
    RemainingWithoutToken(once, token);
  }

  /** A token just saved is found, and it is the saved row unless an
      older row already had the same token. */
  lemma SaveThenFind(rows: RefreshStore, token: string, userId: nat)
    ensures var (row, rows') := SaveRefreshToken(rows, token, userId);
            GetRefreshDataByToken(rows', token).Some?
            && (!HasToken(rows, token) ==> GetRefreshDataByToken(rows', token) == Some(row))
  {
    var (row, rows') := SaveRefreshToken(rows, token, userId);
    assert row in rows';
    if !HasToken(rows, token) {
      var found := GetRefreshDataByToken(rows', token).value;
      assert found in rows' && found.token == token;
      assert found in rows || found == row by {
        assert rows' == rows + [row];
      }
    }
  }

  /** Saving then deleting the token answers true and leaves no row with it. */
  lemma SaveThenDelete(rows: RefreshStore, token: string, userId: nat)
    ensures var (_, rows') := SaveRefreshToken(rows, token, userId);
            var (removed, rows'') := DeleteRefreshToken(rows', token);
            removed && !HasToken(rows'', token)
  {
    var (row, rows') := SaveRefreshToken(rows, token, userId);
    assert row in rows';
  }
}
