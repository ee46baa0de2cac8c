/** A virtual machine of the application under control: an identifier and two resource shares. */
module VirtualMachines {

  type Id = string

  datatype Shares = Shares(cpu: real, mem: real)

  class VirtualMachine {
    const id: Id
    var cpuShare: real
    var memShare: real

    constructor (id: Id, cpuShare: real, memShare: real)
      ensures this.id == id && Get() == Shares(cpuShare, memShare)
    {
      this.id, this.cpuShare, this.memShare := id, cpuShare, memShare;
    }

    function Get(): Shares
      reads this
    {
      Shares(cpuShare, memShare)
    }
  }
}
