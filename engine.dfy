/** Value types shared by the game scripts: Unity's Vector3 (with float
    components modelled as reals) and an optional value. */
module Engine {

  datatype Option<+T> = None | Some(value: T)

  /** Unity's Vector3; floats are modelled as exact reals. */
  datatype Vec3 = Vec3(x: real, y: real, z: real)

  function Add(a: Vec3, b: Vec3): Vec3 {
    Vec3(a.x + b.x, a.y + b.y, a.z + b.z)
  }

  function Sub(a: Vec3, b: Vec3): Vec3 {
    Vec3(a.x - b.x, a.y - b.y, a.z - b.z)
  }

  function Scale(a: Vec3, k: real): Vec3 {
    Vec3(a.x * k, a.y * k, a.z * k)
  }

  /** Square of Vector3.Distance; comparing it with a squared bound avoids the square root. */
  function SqrDistance(a: Vec3, b: Vec3): real {
    var d := Sub(a, b);
    d.x * d.x + d.y * d.y + d.z * d.z
  }
}
