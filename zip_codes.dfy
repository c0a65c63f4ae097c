/**
 * src/services/zip_code_service.py: the `zip_code` table, keyed by an
 * auto-incremented `id`, whose codes are unique. The `department` table
 * appears only as the set of its ids.
 */
module ZipCodes {
  import opened Wrappers
  import Text
  import Tables

  /** A row of `zip_code`. */
  datatype ZipCode = ZipCode(id: int, code: string, departmentId: int)

  /** `ZipCodeCreate`. */
  datatype ZipCodeCreate = ZipCodeCreate(code: string, departmentId: int)

  /** `ZipCodeUpdate`: `None` is a field the client did not set. */
  datatype Patch = Patch(code: Option<string>, departmentId: Option<int>)

  /** One entry of `model_dump(exclude_unset=True)`. */
  datatype Field = Code(text: string) | DepartmentId(department: int)

  /** `NotFoundException`, `UniqueEntityException` and `ValueError`, with their messages. */
  datatype Error = NotFound(detail: string) | UniqueEntity(detail: string) | InvalidValue(detail: string)

  const ZIP_CODE_NOT_FOUND := "zip_code not found"
  /** Raised by `DepartmentService.get_department_by_id`, before the service's own check. */
  const DEPARTMENT_NOT_FOUND := "Department not found"
  const CODE_EXISTS := "Code postal existant"
  const INVALID_CODE := "Code postal invalide"

  /** `not code.isdigit() or len(code) != 5`: anything but exactly five digits is refused. */
  function InvalidCode(code: string): (bad: bool)
    ensures !bad <==> |code| == 5 && forall i :: 0 <= i < 5 ==> Text.IsDigit(code[i])
  {
    !Text.IsDigits(code) || |code| != 5
  }

  /** The set fields of a patch, in declaration order. */
  function Dump(p: Patch): seq<Field> {
    (if p.code.Some? then [Code(p.code.value)] else [])
    + (if p.departmentId.Some? then [DepartmentId(p.departmentId.value)] else [])
  }

  /** `setattr(zip_code, field, value)`. */
  function Set(z: ZipCode, f: Field): ZipCode {
    match f
    case Code(v) => z.(code := v)
    case DepartmentId(v) => z.(departmentId := v)
  }

  /** The row a patch describes: each set field replaced, every other field kept. */
  function Merge(z: ZipCode, p: Patch): ZipCode {
    ZipCode(z.id, p.code.GetOr(z.code), p.departmentId.GetOr(z.departmentId))
  }

  /** The `setattr` loop produces the merged row, so the id never changes. */
  lemma {:induction false} PatchMerges(z: ZipCode, p: Patch)
    ensures Tables.Applied(z, Dump(p), Set) == Merge(z, p)
    ensures Merge(z, p).id == z.id
  {
    var a := if p.code.Some? then [Code(p.code.value)] else [];
    var b := if p.departmentId.Some? then [DepartmentId(p.departmentId.value)] else [];
    Tables.AppliedConcat(z, a, b, Set);
    if a != [] {
      Tables.AppliedOne(z, a[0], Set);
    }
    if b != [] {
      Tables.AppliedOne(Tables.Applied(z, a, Set), b[0], Set);
    }
  }

  class ZipCodeService {
    var zipCodes: map<int, ZipCode>
    var departments: set<int>
    /** The next value of the `id` auto-increment. */
    var nextId: int

    /** Each row sits under its own id, below the counter, and no two rows share a code. */
    ghost predicate Valid()
      reads this
    {
      && 0 < nextId
      && (forall id :: id in zipCodes ==> zipCodes[id].id == id && 0 < id < nextId)
      && forall a, b :: a in zipCodes && b in zipCodes && zipCodes[a].code == zipCodes[b].code ==> a == b
    }

    constructor (departments: set<int>)
      ensures Valid()
      ensures zipCodes == map[] && this.departments == departments
    {
      zipCodes := map[];
      this.departments := departments;
      nextId := 1;
    }

    /** `find_one_by({"code": code})` succeeds. */
    predicate HasCode(code: string)
      reads this
    {
      exists id :: id in zipCodes && zipCodes[id].code == code
    }

    /** `get_zip_code_by_id`. */
    function GetZipCodeById(zipCodeId: int): (r: Result<ZipCode, Error>)
      reads this
      ensures r.Failure? <==> zipCodeId !in zipCodes
      ensures r.Failure? ==> r.error == NotFound(ZIP_CODE_NOT_FOUND)
      ensures r.Success? && Valid() ==>
                r.value.id == zipCodeId && forall id :: id in zipCodes && zipCodes[id].code == r.value.code ==> id == zipCodeId
    {
      if zipCodeId in zipCodes then Success(zipCodes[zipCodeId]) else Failure(NotFound(ZIP_CODE_NOT_FOUND))
    }

    /**
     * `create_zip_code`: the department must exist, then the code must be new,
     * and only then must it be five digits; the new row takes the next id.
     */
    method CreateZipCode(data: ZipCodeCreate) returns (r: Result<ZipCode, Error>)
      requires Valid()
      modifies this`zipCodes, this`nextId
      ensures Valid()
      ensures r.Failure? ==> zipCodes == old(zipCodes) && nextId == old(nextId)
      ensures data.departmentId !in departments ==> r == Failure(NotFound(DEPARTMENT_NOT_FOUND))
      ensures data.departmentId in departments && old(HasCode(data.code)) ==> r == Failure(UniqueEntity(CODE_EXISTS))
      ensures (data.departmentId in departments && !old(HasCode(data.code)) && InvalidCode(data.code))
              ==> r == Failure(InvalidValue(INVALID_CODE))
      ensures r.Success? <==> data.departmentId in departments && !old(HasCode(data.code)) && !InvalidCode(data.code)
      ensures r.Success? ==>
                && old(nextId) !in old(zipCodes)
                && r.value == ZipCode(old(nextId), data.code, data.departmentId)
                && zipCodes == old(zipCodes)[old(nextId) := r.value]
    {
      if data.departmentId !in departments {
        return Failure(NotFound(DEPARTMENT_NOT_FOUND));
      }
      if HasCode(data.code) {
        return Failure(UniqueEntity(CODE_EXISTS));
      }
      if InvalidCode(data.code) {
        return Failure(InvalidValue(INVALID_CODE));
      }
      var zipCode := ZipCode(nextId, data.code, data.departmentId);
      zipCodes := zipCodes[nextId := zipCode];
      nextId := nextId + 1;
      r := Success(zipCode);
    }

    /**
     * `update_zip_code`: a patched code already in the table is refused, even
     * when it is the row's own code; then only the set fields change. A patch
     * without a code matches no row.
     */
    method UpdateZipCode(zipCodeId: int, patch: Patch) returns (r: Result<ZipCode, Error>)
      requires Valid()
      modifies this`zipCodes
      ensures Valid()
      ensures r.Failure? ==> zipCodes == old(zipCodes)
      ensures zipCodeId !in old(zipCodes) ==> r == Failure(NotFound(ZIP_CODE_NOT_FOUND))
      ensures zipCodeId in old(zipCodes) && patch.code == Some(old(zipCodes)[zipCodeId].code) ==> r == Failure(UniqueEntity(CODE_EXISTS))
      ensures (zipCodeId in old(zipCodes) && patch.code.Some? && old(HasCode(patch.code.value)))
              ==> r == Failure(UniqueEntity(CODE_EXISTS))
      ensures r.Success? <==> zipCodeId in old(zipCodes) && !(patch.code.Some? && old(HasCode(patch.code.value)))
      ensures r.Success? ==>
                var merged := Merge(old(zipCodes)[zipCodeId], patch);
                r.value == merged && zipCodes == old(zipCodes)[zipCodeId := merged]
    {
      var found := GetZipCodeById(zipCodeId);
      if found.Failure? {
        return Failure(found.error);
      }
      if patch.code.Some? && HasCode(patch.code.value) {
        return Failure(UniqueEntity(CODE_EXISTS));
      }
      var zipCode := Tables.ApplyPatch(found.value, Dump(patch), Set);
      PatchMerges(found.value, patch);
      zipCodes := zipCodes[zipCodeId := zipCode];
      r := Success(zipCode);
    }

    /** `delete_zip_code`: removes the addressed row; a missing id is silently ignored. */
    method DeleteZipCode(zipCodeId: int)
      requires Valid()
      modifies this`zipCodes
      ensures Valid()
      ensures zipCodes == old(zipCodes) - {zipCodeId}
    {
      var found := GetZipCodeById(zipCodeId);
      if found.Failure? {
        return;
      }
      zipCodes := zipCodes - {zipCodeId};
    }
  }
}
