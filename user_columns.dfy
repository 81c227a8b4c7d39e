/** app/ent/user/user.go: the SQL columns of the users table and ValidColumn. */
module UserColumns {

  const FieldID: string := "id"
  const FieldName: string := "name"
  const FieldPassword: string := "password"
  const FieldAge: string := "age"
  const FieldIsActive: string := "is_active"
  const FieldCreatedAt: string := "created_at"

  const EdgeBlogs: string := "blogs"
  const EdgeFriends: string := "friends"
  const BlogsColumn: string := "user_blogs"
  const FriendsPrimaryKey: seq<string> := ["user_id", "friend_id"]

  /** `Columns`, in declaration order. */
  const Columns: seq<string> := [FieldID, FieldName, FieldPassword, FieldAge, FieldIsActive, FieldCreatedAt]

  /** ValidColumn: scan Columns in order and stop at the first equal entry. Returns the
      index it stopped at (|Columns| when none matched) besides the verdict. */
  method ValidColumn(column: string) returns (valid: bool, ghost at: nat)
    ensures valid <==> column in Columns
    ensures valid ==> at < |Columns| && Columns[at] == column && column !in Columns[..at]
    ensures !valid ==> at == |Columns|
  {
    var i := 0;
    while i < |Columns|
      invariant 0 <= i <= |Columns|
      invariant column !in Columns[..i]
    {
      if column == Columns[i] {
        return true, i;
      }
      assert Columns[..i + 1] == Columns[..i] + [Columns[i]];
      i := i + 1;
    }
    assert Columns[..i] == Columns;
    return false, i;
  }

  /** The six columns are distinct, so each is found at its own position. */
  lemma ColumnsDistinct()
    ensures |Columns| == 6
    ensures forall i, j :: 0 <= i < j < |Columns| ==> Columns[i] != Columns[j]
  {
    assert Columns[0][0] == 'i' && Columns[1][0] == 'n' && Columns[2][0] == 'p';
    assert Columns[3][0] == 'a' && Columns[4][0] == 'i' && Columns[5][0] == 'c';
    assert |Columns[0]| != |Columns[4]|;
  }

  /** Edge names, the blogs foreign key and the friends join-table keys are not columns. */
  lemma NonColumns()
    ensures EdgeBlogs !in Columns && EdgeFriends !in Columns && BlogsColumn !in Columns
    ensures forall k :: k in FriendsPrimaryKey ==> k !in Columns
  {
    assert EdgeBlogs[0] == 'b' && EdgeFriends[0] == 'f' && BlogsColumn[0] == 'u';
    assert FriendsPrimaryKey[0][0] == 'u' && FriendsPrimaryKey[1][0] == 'f';
    forall i | 0 <= i < |Columns|
      ensures Columns[i][0] != 'b' && Columns[i][0] != 'f' && Columns[i][0] != 'u'
    {
    }
  }
}
