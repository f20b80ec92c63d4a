/** JSON values as the library reads them, and the C-string conventions of its lookups. */
module Json {

  datatype Option<+T> = None | Some(value: T)

  /** A JSON value tree. One `char` of a string stands for one byte of its UTF-8 text. */
  datatype Value =
    | JNull
    | JBool(b: bool)
    | JInt(i: int)
    | JReal(r: real)
    | JStr(s: string)
    | JArr(items: seq<Value>)
    | JObj(members: seq<Member>)

  datatype Member = Member(key: string, value: Value)

  const NUL: char := '\0'

  /** The bytes a C function sees behind a `const char *`: everything before the first NUL. */
  function CStr(s: string): (c: string)
    ensures c <= s
    ensures NUL !in c
    ensures |c| < |s| ==> s[|c|] == NUL
  {
    if s == [] || s[0] == NUL then [] else [s[0]] + CStr(s[1..])
  }

  lemma CStrOfClean(s: string)
    requires NUL !in s
    ensures CStr(s) == s
  {
  }

  /** First member with the given key bytes. */
  function Find(members: seq<Member>, key: string): (r: Option<Value>)
    ensures r.None? <==> forall m | m in members :: m.key != key
    ensures r.Some? ==> exists i :: && 0 <= i < |members| && members[i] == Member(key, r.value)
                                    && forall j | 0 <= j < i :: members[j].key != key
  {
    if members == [] then None
    else if members[0].key == key then
      assert members[0] == Member(key, members[0].value);
      Some(members[0].value)
    else
      var r := Find(members[1..], key);
      assert r.Some? ==> exists i :: 0 < i < |members| && members[i] == Member(key, r.value)
                                     && forall j | 0 <= j < i :: members[j].key != key by {
        if r.Some? {
          var i :| 0 <= i < |members[1..]| && members[1..][i] == Member(key, r.value)
                   && forall j | 0 <= j < i :: members[1..][j].key != key;
          assert members[i + 1] == Member(key, r.value);
          assert forall j | 0 < j < i + 1 :: members[j] == members[1..][j - 1];
        }
      }
      r
  }

  /** `yyjson_obj_get(obj, name)` for a NUL-terminated name: nothing unless `v` is an object. */
  function Get(v: Value, name: string): Option<Value> {
    if v.JObj? then Find(v.members, CStr(name)) else None
  }

  /** The same for a name that may be a null pointer, which finds nothing. */
  function GetNamed(v: Value, name: Option<string>): Option<Value> {
    if name.Some? then Get(v, name.value) else None
  }

  /** Two C strings compare equal (`strcmp(a, b) == 0`). */
  predicate SameCStr(a: string, b: string) {
    CStr(a) == CStr(b)
  }

  /** A name that may be a null pointer, compared with a C string. */
  predicate SameName(a: Option<string>, b: string) {
    a.Some? && SameCStr(a.value, b)
  }

  // ----- the same, without the functions above -----

  /** `c` is what is in front of the first NUL of `s`, or all of it. */
  predicate IsCText(c: string, s: string) {
    c <= s && '\0' !in c && (|c| < |s| ==> s[|c|] == '\0')
  }

  lemma {:induction false} CTextIs(c: string, s: string)
    ensures IsCText(c, s) <==> c == CStr(s)
  {
    if c != [] && IsCText(c, s) {
      assert s[0] == c[0] && c[0] in c && forall x | x in c[1..] :: x in c;
      CTextIs(c[1..], s[1..]);
    }
  }

  /** The first member with this key holds `v`. */
  ghost predicate FirstMember(members: seq<Member>, key: string, v: Value) {
    exists i :: 0 <= i < |members| && members[i] == Member(key, v) && forall j | 0 <= j < i :: members[j].key != key
  }

  ghost predicate NoMember(members: seq<Member>, key: string) {
    forall i | 0 <= i < |members| :: members[i].key != key
  }

  lemma FindIsFirst(members: seq<Member>, key: string, v: Value)
    ensures FirstMember(members, key, v) <==> Find(members, key) == Some(v)
    ensures NoMember(members, key) <==> Find(members, key).None?
  {
    if i, j :| 0 <= i < |members| && members[i] == Member(key, v) && (forall k | 0 <= k < i :: members[k].key != key)
               && Find(members, key).Some? && 0 <= j < |members|
               && members[j] == Member(key, Find(members, key).value)
               && (forall k | 0 <= k < j :: members[k].key != key) {
      assert i == j;
    }
    assert forall i | 0 <= i < |members| :: members[i] in members;
  }

  /** A lookup by a C string finds the first member called by what is in front of the string's first NUL. */
  lemma GetIsFirst(v: Value, name: string, c: string, r: Value)
    requires IsCText(c, name)
    ensures Get(v, name) == Some(r) <==> v.JObj? && FirstMember(v.members, c, r)
    ensures Get(v, name).None? <==> v.JObj? ==> NoMember(v.members, c)
  {
    hide Find, FirstMember, NoMember;
    CTextIs(c, name);
    if v.JObj? { FindIsFirst(v.members, c, r); }
  }
}
